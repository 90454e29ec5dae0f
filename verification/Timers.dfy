/** The timer queue (src/network/TimerQueue.cc).  Timers live on the heap and are known by address; two
    indexes must agree about them, one ordered by expiration and one by (address, sequence number), which
    also serves cancellation.  Callbacks of a running batch may add and cancel timers, so a batch is three
    kinds of step here: it begins, its callbacks run with any actions between them, and it ends. */
module Timers {
  import opened Base

  type Addr = nat

  const UINTPTR_MAX: nat := 0xFFFF_FFFF_FFFF_FFFF

  /** `delta` is the interval in microseconds, cut to an integer, of a repeating timer. */
  datatype Timer = Timer(expiration: int, repeat: bool, delta: nat, sn: nat)

  type Heap = map<Addr, Timer>

  datatype Entry = Entry(at: int, addr: Addr)

  datatype Id = Id(addr: Addr, sn: nat)

  datatype Alarm = Alarm(at: int, armedAt: int)

  /** `pending` are timers allocated by addTimer whose insertion is still queued; `batch` is what
      handleRead is running, `pos` how far it is, `now` its time.  `ran`, `dead` and `kind` are history:
      the sequence numbers run so far, those cancelled while scheduled or running, and whether each
      number ever given out belongs to a repeating timer. */
  datatype Queue = Queue(
    heap: map<Addr, Timer>,
    pending: set<Addr>,
    timers: set<Entry>,
    active: set<Id>,
    calling: bool,
    canceling: set<Id>,
    batch: seq<Entry>,
    pos: nat,
    now: int,
    nextSn: nat,
    alarm: Option<Alarm>,
    ran: seq<nat>,
    dead: set<nat>,
    kind: map<nat, bool>)

  function IdIn(h: Heap, a: Addr): Id
    requires a in h
  {
    Id(a, h[a].sn)
  }

  predicate Less(a: Entry, b: Entry) {
    a.at < b.at || (a.at == b.at && a.addr < b.addr)
  }

  function Max(a: int, b: int): int {
    if a >= b then a else b
  }

  /** resetTimerfd with howMuchTimeFromNow: at least 100 microseconds ahead. */
  function Armed(when: int, clock: int): Alarm {
    Alarm(clock + Max(when - clock, 100), clock)
  }

  /** The timespec that is handed to timerfd_settime: whole seconds and the rest in nanoseconds. */
  function HowMuchTimeFromNow(when: int, clock: int): (ts: (nat, nat))
    ensures ts.1 < 1_000_000_000 && ts.1 % 1000 == 0
    ensures ts.0 * 1_000_000 + ts.1 / 1000 == if when - clock < 100 then 100 else when - clock
    ensures Armed(when, clock) == Alarm(clock + ts.0 * 1_000_000 + ts.1 / 1000, clock)
  {
    var us := Max(when - clock, 100);
    (us / 1_000_000, us % 1_000_000 * 1000)
  }

  function IdAt(q: Queue, a: Addr): Id
    requires a in q.heap
  {
    Id(a, q.heap[a].sn)
  }

  /** insert, with its assertions; the flag says whether the earliest expiration changed. */
  function Insert(q: Queue, a: Addr): Outcome<(Queue, bool)> {
    if a !in q.heap || |q.timers| != |q.active| then Crash
    else
      var e := Entry(q.heap[a].expiration, a);
      if e in q.timers || IdAt(q, a) in q.active then Crash
      else Ok((q.(timers := q.timers + {e}, active := q.active + {IdAt(q, a)}),
               forall f :: f in q.timers ==> e.at < f.at))
  }

  function AddInLoop(q: Queue, a: Addr, clock: int): Outcome<Queue> {
    var (r, earliest) :- Insert(q.(pending := q.pending - {a}), a);
    if earliest then Ok(r.(alarm := Some(Armed(r.heap[a].expiration, clock)))) else Ok(r)
  }

  /** The addresses of the running batch. */
  predicate InBatch(q: Queue, id: Id) {
    id.addr in q.heap && q.heap[id.addr].sn == id.sn && exists i :: 0 <= i < |q.batch| && q.batch[i].addr == id.addr
  }

  function CancelInLoop(q: Queue, id: Id): Outcome<Queue> {
    if |q.timers| != |q.active| then Crash
    else if id in q.active then
      if id.addr !in q.heap || Entry(q.heap[id.addr].expiration, id.addr) !in q.timers then Crash
      else Ok(q.(timers := q.timers - {Entry(q.heap[id.addr].expiration, id.addr)},
                 active := q.active - {id}, heap := q.heap - {id.addr}, dead := q.dead + {id.sn}))
    else if q.calling then
      Ok(q.(canceling := q.canceling + {id}, dead := if InBatch(q, id) then q.dead + {id.sn} else q.dead))
    else Ok(q)
  }

  ghost predicate Sorted(es: seq<Entry>) {
    forall i, j :: 0 <= i < j < |es| ==> Less(es[i], es[j])
  }

  /** What getExpired takes: everything below the sentry (now, UINTPTR_MAX), in order. */
  ghost predicate Expired(q: Queue, now: int, es: seq<Entry>) {
    Sorted(es) && forall e :: e in es <==> e in q.timers && Less(e, Entry(now, UINTPTR_MAX))
  }

  ghost function SetOf(es: seq<Entry>): set<Entry> {
    set e | e in es
  }

  ghost function IdsOf(h: Heap, es: seq<Entry>): set<Id> {
    set e | e in es :: if e.addr in h then IdIn(h, e.addr) else Id(e.addr, 0)
  }

  ghost function Begin(q: Queue, now: int, es: seq<Entry>): Outcome<Queue> {
    if |q.timers| != |q.active| || (exists e :: e in es && (e.addr !in q.heap || IdAt(q, e.addr) !in q.active))
    then Crash
    else
      var r := q.(timers := q.timers - SetOf(es), active := q.active - IdsOf(q.heap, es),
                  calling := true, canceling := {}, batch := es, pos := 0, now := now, alarm := None);
      if |r.timers| != |r.active| then Crash else Ok(r)
  }

  function RunNext(q: Queue): Outcome<Queue>
    requires q.pos < |q.batch|
  {
    var a := q.batch[q.pos].addr;
    if a !in q.heap then Crash else Ok(q.(pos := q.pos + 1, ran := q.ran + [q.heap[a].sn]))
  }

  /** One turn of reset's loop: the first entry of the batch is restarted or deleted. */
  function ResetOne(q: Queue): Outcome<Queue>
    requires q.batch != []
  {
    var a := q.batch[0].addr;
    if a !in q.heap then Crash
    else if q.heap[a].repeat && IdAt(q, a) !in q.canceling then
      var (r, _) :- Insert(q.(heap := q.heap[a := q.heap[a].(expiration := q.now + q.heap[a].delta)],
                              batch := q.batch[1..]), a);
      Ok(r)
    else Ok(q.(heap := q.heap - {a}, batch := q.batch[1..]))
  }

  function ResetAll(q: Queue): Outcome<Queue>
    decreases |q.batch|
  {
    if q.batch == [] then Ok(q)
    else
      var r :- ResetOne(q);
      if |r.batch| < |q.batch| then ResetAll(r) else Crash
  }

  predicate IsFirst(ts: set<Entry>, e: Entry) {
    e in ts && forall f :: f in ts ==> e == f || Less(e, f)
  }

  /** The end of reset: arm for the earliest timer, if its time is valid. */
  ghost function Rearm(q: Queue, clock: int): Queue {
    if exists e :: IsFirst(q.timers, e) then
      var e :| IsFirst(q.timers, e);
      if e.at > 0 then q.(alarm := Some(Armed(e.at, clock))) else q
    else q
  }

  ghost function End(q: Queue, clock: int): Outcome<Queue> {
    var r :- ResetAll(q.(calling := false, pos := 0));
    Ok(Rearm(r, clock))
  }

  // ---------------------------------------------------------------- the system

  datatype Event =
    | ENew(addr: Addr, when: int, repeat: bool, delta: nat)  // addTimer allocates
    | EAdd(addr: Addr, clock: int)                           // its insertion runs in the loop
    | ECancel(id: Id)
    | EBegin(now: int, batch: seq<Entry>)
    | ERun
    | EEnd(clock: int)

  ghost predicate Enabled(q: Queue, e: Event) {
    match e
    case ENew(a, _, _, _) => a !in q.heap && a < UINTPTR_MAX
    case EAdd(a, _) => a in q.pending
    case ECancel(_) => true
    case EBegin(now, es) => !q.calling && q.alarm.Some? && now > 0 && Expired(q, now, es)
    case ERun => q.calling && q.pos < |q.batch|
    case EEnd(_) => q.calling && q.pos == |q.batch|
  }

  ghost function Apply(q: Queue, e: Event): Outcome<Queue>
    requires Enabled(q, e)
  {
    match e
    case ENew(a, when, repeat, delta) =>
      Ok(q.(heap := q.heap[a := Timer(when, repeat, delta, q.nextSn)], pending := q.pending + {a},
            nextSn := q.nextSn + 1, kind := q.kind[q.nextSn := repeat]))
    case EAdd(a, clock) => AddInLoop(q, a, clock)
    case ECancel(id) => CancelInLoop(q, id)
    case EBegin(now, es) => Begin(q, now, es)
    case ERun => RunNext(q)
    case EEnd(clock) => End(q, clock)
  }

  ghost predicate Init(q: Queue) {
    q == Queue(map[], {}, {}, {}, false, {}, [], 0, 0, 0, None, [], {}, map[])
  }

  // ---------------------------------------------------------------- invariant

  /** The two indexes describe the same timers, with their current expirations. */
  ghost predicate Indexed(h: Heap, timers: set<Entry>, active: set<Id>) {
    && |timers| == |active|
    && (forall e :: e in timers ==> e.addr in h && h[e.addr].expiration == e.at && IdIn(h, e.addr) in active)
    && (forall id :: id in active ==>
          id.addr in h && IdIn(h, id.addr) == id && Entry(h[id.addr].expiration, id.addr) in timers)
  }

  ghost predicate Has(batch: seq<Entry>, a: Addr) {
    exists i :: 0 <= i < |batch| && batch[i].addr == a
  }

  /** Every allocated timer is waiting for insertion, scheduled, or in the running batch: exactly one. */
  ghost predicate Placed(h: Heap, pending: set<Addr>, active: set<Id>, batch: seq<Entry>) {
    && (forall a :: a in h ==> a in pending || IdIn(h, a) in active || Has(batch, a))
    && (forall a :: a in pending ==> a in h && IdIn(h, a) !in active && !Has(batch, a))
    && (forall i :: 0 <= i < |batch| ==> batch[i].addr in h && IdIn(h, batch[i].addr) !in active)
    && (forall i, j :: 0 <= i < j < |batch| ==> batch[i].addr != batch[j].addr)
  }

  /** Sequence numbers identify timers for ever. */
  ghost predicate Numbered(h: Heap, nextSn: nat) {
    && (forall a :: a in h ==> h[a].sn < nextSn && a < UINTPTR_MAX)
    && (forall a, b :: a in h && b in h && h[a].sn == h[b].sn ==> a == b)
  }

  ghost predicate History(ran: seq<nat>, dead: set<nat>, nextSn: nat) {
    && (forall s :: s in ran ==> s < nextSn)
    && (forall s :: s in dead ==> s < nextSn)
  }

  /** A cancelled timer is scheduled nowhere; if its batch is still running it is marked. */
  ghost predicate Buried(h: Heap, dead: set<nat>, batch: seq<Entry>, canceling: set<Id>) {
    forall a :: a in h && h[a].sn in dead ==> Has(batch, a) && IdIn(h, a) in canceling
  }

  /** The alarm goes off by the expiration of `e`, or within 100 microseconds of being set. */
  ghost predicate Covers(alarm: Option<Alarm>, e: Entry) {
    alarm.Some? && (alarm.value.at <= e.at || alarm.value.at <= alarm.value.armedAt + 100)
  }

  /** Between batches every timer is covered; during one, the end of the batch covers those with a
      valid time. */
  ghost predicate Alarmed(timers: set<Entry>, calling: bool, alarm: Option<Alarm>) {
    forall e :: e in timers && (!calling || e.at <= 0) ==> Covers(alarm, e)
  }

  ghost predicate Phase(q: Queue) {
    (!q.calling ==> q.batch == []) && q.pos <= |q.batch| && (q.calling ==> q.now > 0)
  }

  ghost predicate Inv(q: Queue) {
    && Indexed(q.heap, q.timers, q.active)
    && Placed(q.heap, q.pending, q.active, q.batch)
    && Numbered(q.heap, q.nextSn)
    && History(q.ran, q.dead, q.nextSn)
    && Buried(q.heap, q.dead, q.batch, q.canceling)
    && Alarmed(q.timers, q.calling, q.alarm)
    && Phase(q)
  }

  // ---------------------------------------------------------------- preservation

  lemma InitInv(q: Queue)
    requires Init(q)
    ensures Inv(q)
  {
  }

  lemma NewIndexed(h: Heap, timers: set<Entry>, active: set<Id>, a: Addr, t: Timer)
    requires Indexed(h, timers, active) && a !in h
    ensures Indexed(h[a := t], timers, active)
  {
  }

  lemma NewPlaced(
      h: Heap, pending: set<Addr>, timers: set<Entry>, active: set<Id>, batch: seq<Entry>, a: Addr, t: Timer)
    requires Placed(h, pending, active, batch) && Indexed(h, timers, active) && a !in h
    ensures Placed(h[a := t], pending + {a}, active, batch)
  {
  }

  lemma NewBuried(h: Heap, dead: set<nat>, batch: seq<Entry>, canceling: set<Id>, nextSn: nat, a: Addr, t: Timer)
    requires Buried(h, dead, batch, canceling) && Numbered(h, nextSn) && t.sn == nextSn && a < UINTPTR_MAX
    requires forall s :: s in dead ==> s < nextSn
    requires a !in h
    ensures Buried(h[a := t], dead, batch, canceling) && Numbered(h[a := t], nextSn + 1)
  {
  }

  lemma NewKeeps(q: Queue, e: Event)
    requires Inv(q) && e.ENew? && Enabled(q, e)
    ensures Apply(q, e).Ok? && Inv(Apply(q, e).value)
  {
    var t := Timer(e.when, e.repeat, e.delta, q.nextSn);
    hide Indexed, Placed, Buried, Numbered, Alarmed;
    NewIndexed(q.heap, q.timers, q.active, e.addr, t);
    NewPlaced(q.heap, q.pending, q.timers, q.active, q.batch, e.addr, t);
    NewBuried(q.heap, q.dead, q.batch, q.canceling, q.nextSn, e.addr, t);
  }

  /** Scheduling a timer that is in neither index. */
  lemma InsertIndexed(h: Heap, timers: set<Entry>, active: set<Id>, a: Addr)
    requires Indexed(h, timers, active) && a in h && IdIn(h, a) !in active
    ensures Entry(h[a].expiration, a) !in timers
    ensures Indexed(h, timers + {Entry(h[a].expiration, a)}, active + {IdIn(h, a)})
  {
  }

  lemma InsertPlaced(h: Heap, pending: set<Addr>, active: set<Id>, batch: seq<Entry>, a: Addr)
    requires Placed(h, pending, active, batch) && a in pending
    ensures Placed(h, pending - {a}, active + {IdIn(h, a)}, batch)
  {
    assert forall i :: 0 <= i < |batch| ==> Has(batch, batch[i].addr);
  }

  /** A timer that is not the earliest is covered by the alarm of one that is not later. */
  lemma InsertAlarmed(timers: set<Entry>, calling: bool, alarm: Option<Alarm>, x: Entry, clock: int)
    requires Alarmed(timers, calling, alarm)
    ensures (forall f :: f in timers ==> x.at < f.at) ==> Alarmed(timers + {x}, calling, Some(Armed(x.at, clock)))
    ensures !(forall f :: f in timers ==> x.at < f.at) ==> Alarmed(timers + {x}, calling, alarm)
  {
  }

  lemma AddKeeps(q: Queue, e: Event)
    requires Inv(q) && e.EAdd? && Enabled(q, e)
    ensures Apply(q, e).Ok? && Inv(Apply(q, e).value)
  {
    var a := e.addr;
    var x := Entry(q.heap[a].expiration, a);
    PendingFacts(q, a);
    hide Indexed, Placed, Alarmed, Numbered, History, Buried;
    InsertIndexed(q.heap, q.timers, q.active, a);
    InsertPlaced(q.heap, q.pending, q.active, q.batch, a);
    InsertAlarmed(q.timers, q.calling, q.alarm, x, e.clock);
    AddIs(q, a, e.clock);
    hide AddInLoop;
  }

  lemma AddIs(q: Queue, a: Addr, clock: int)
    requires a in q.heap && IdAt(q, a) !in q.active && |q.timers| == |q.active|
    requires Entry(q.heap[a].expiration, a) !in q.timers
    ensures var x := Entry(q.heap[a].expiration, a);
      AddInLoop(q, a, clock) == Ok(q.(
        pending := q.pending - {a}, timers := q.timers + {x}, active := q.active + {IdAt(q, a)},
        alarm := if forall f :: f in q.timers ==> x.at < f.at then Some(Armed(x.at, clock)) else q.alarm))
  {
  }

  lemma PendingFacts(q: Queue, a: Addr)
    requires Inv(q) && a in q.pending
    ensures a in q.heap && IdIn(q.heap, a) !in q.active && |q.timers| == |q.active| && IdAt(q, a) == IdIn(q.heap, a)
  {
  }

  lemma RemoveIndexed(h: Heap, timers: set<Entry>, active: set<Id>, id: Id)
    requires Indexed(h, timers, active) && id in active
    ensures id.addr in h && Entry(h[id.addr].expiration, id.addr) in timers
    ensures Indexed(h - {id.addr}, timers - {Entry(h[id.addr].expiration, id.addr)}, active - {id})
  {
  }

  lemma RemovePlaced(h: Heap, pending: set<Addr>, active: set<Id>, batch: seq<Entry>, id: Id)
    requires Placed(h, pending, active, batch) && id in active && id.addr in h && IdIn(h, id.addr) == id
    ensures Placed(h - {id.addr}, pending, active - {id}, batch)
  {
  }

  lemma RemoveBuried(h: Heap, dead: set<nat>, batch: seq<Entry>, canceling: set<Id>, nextSn: nat, id: Id)
    requires Buried(h, dead, batch, canceling) && Numbered(h, nextSn) && id.addr in h && IdIn(h, id.addr) == id
    ensures Buried(h - {id.addr}, dead + {id.sn}, batch, canceling) && Numbered(h - {id.addr}, nextSn)
  {
  }

  lemma ActiveFacts(q: Queue, id: Id)
    requires Inv(q) && id in q.active
    ensures id.addr in q.heap && IdIn(q.heap, id.addr) == id && id.sn < q.nextSn && |q.timers| == |q.active|
  {
  }

  lemma RemoveAlarmed(timers: set<Entry>, x: Entry, calling: bool, alarm: Option<Alarm>)
    requires Alarmed(timers, calling, alarm)
    ensures Alarmed(timers - {x}, calling, alarm)
  {
  }

  lemma CancelOf(q: Queue, id: Id)
    requires |q.timers| == |q.active| && id in q.active && id.addr in q.heap
    requires Entry(q.heap[id.addr].expiration, id.addr) in q.timers
    ensures CancelInLoop(q, id) == Ok(q.(
      timers := q.timers - {Entry(q.heap[id.addr].expiration, id.addr)}, active := q.active - {id},
      heap := q.heap - {id.addr}, dead := q.dead + {id.sn}))
  {
  }

  lemma CancelScheduled(q: Queue, id: Id)
    requires Inv(q) && id in q.active
    ensures CancelInLoop(q, id).Ok? && Inv(CancelInLoop(q, id).value)
  {
    hide Indexed, Placed, Buried, Numbered, Alarmed, CancelInLoop;
    ActiveFacts(q, id);
    RemoveIndexed(q.heap, q.timers, q.active, id);
    RemovePlaced(q.heap, q.pending, q.active, q.batch, id);
    RemoveBuried(q.heap, q.dead, q.batch, q.canceling, q.nextSn, id);
    RemoveAlarmed(q.timers, Entry(q.heap[id.addr].expiration, id.addr), q.calling, q.alarm);
    CancelOf(q, id);
  }

  lemma CancelUnscheduled(q: Queue, id: Id)
    requires Inv(q) && id !in q.active
    ensures CancelInLoop(q, id).Ok? && Inv(CancelInLoop(q, id).value)
  {
    assert InBatch(q, id) ==> Has(q.batch, id.addr);
    assert |q.timers| == |q.active|;
    hide Indexed, Placed, Alarmed;
  }

  /** Cancelling keeps everything in order, whether the timer is scheduled, running or long gone. */
  lemma CancelKeeps(q: Queue, e: Event)
    requires Inv(q) && e.ECancel? && Enabled(q, e)
    ensures Apply(q, e).Ok? && Inv(Apply(q, e).value)
  {
    hide Inv, CancelInLoop;
    if e.id in q.active {
      CancelScheduled(q, e.id);
    } else {
      CancelUnscheduled(q, e.id);
    }
  }

  // ---------------------------------------------------------------- a batch begins

  lemma UnlistIndexed(h: Heap, timers: set<Entry>, active: set<Id>, e: Entry)
    requires Indexed(h, timers, active) && e in timers
    ensures e.addr in h && Indexed(h, timers - {e}, active - {IdIn(h, e.addr)})
  {
  }

  lemma SetsOfRest(h: Heap, es: seq<Entry>)
    requires es != [] && es[0].addr in h
    ensures SetOf(es) == {es[0]} + SetOf(es[1..])
    ensures IdsOf(h, es) == {IdIn(h, es[0].addr)} + IdsOf(h, es[1..])
  {
    assert es == [es[0]] + es[1..];
  }

  lemma {:induction false} BatchIndexed(h: Heap, timers: set<Entry>, active: set<Id>, es: seq<Entry>)
    requires Indexed(h, timers, active) && Sorted(es) && forall e :: e in es ==> e in timers
    ensures Indexed(h, timers - SetOf(es), active - IdsOf(h, es))
    decreases |es|
  {
    if es == [] {
      assert timers - SetOf(es) == timers && active - IdsOf(h, es) == active;
    } else {
      hide Indexed;
      var e, rest := es[0], es[1..];
      assert e in es;
      UnlistIndexed(h, timers, active, e);
      SortedRest(es);
      SetsOfRest(h, es);
      hide SetOf, IdsOf, Sorted;
      BatchIndexed(h, timers - {e}, active - {IdIn(h, e.addr)}, rest);
      MinusBoth(timers, e, SetOf(rest));
      MinusBoth(active, IdIn(h, e.addr), IdsOf(h, rest));
    }
  }

  lemma MinusBoth<T>(a: set<T>, x: T, b: set<T>)
    ensures a - ({x} + b) == (a - {x}) - b
  {
  }

  lemma SortedRest(es: seq<Entry>)
    requires Sorted(es) && es != []
    ensures Sorted(es[1..]) && forall f :: f in es[1..] ==> f in es && f != es[0]
  {
    assert forall i :: 0 <= i < |es[1..]| ==> es[1..][i] == es[i + 1] && Less(es[0], es[i + 1]);
  }

  lemma BatchPlaced(h: Heap, pending: set<Addr>, timers: set<Entry>, active: set<Id>, es: seq<Entry>)
    requires Placed(h, pending, active, []) && Indexed(h, timers, active)
    requires Sorted(es) && forall e :: e in es ==> e in timers
    ensures Placed(h, pending, active - IdsOf(h, es), es)
  {
    var rest := active - IdsOf(h, es);
    forall a | a in h
      ensures a in pending || IdIn(h, a) in rest || Has(es, a)
    {
      assert !Has([], a);
      if IdIn(h, a) in IdsOf(h, es) {
        var e :| e in es && e.addr == a;
        var i :| 0 <= i < |es| && es[i] == e;
      }
    }
    forall i | 0 <= i < |es|
      ensures es[i].addr in h && IdIn(h, es[i].addr) !in rest && es[i].addr !in pending
    {
      assert es[i] in es;
    }
    forall i, j | 0 <= i < j < |es|
      ensures es[i].addr != es[j].addr
    {
      assert es[i] in es && es[j] in es && Less(es[i], es[j]);
    }
  }

  /** A batch is exactly the timers whose time has come. */
  lemma BatchIsDue(q: Queue, now: int, es: seq<Entry>)
    requires Inv(q) && Expired(q, now, es)
    ensures forall e :: e in es <==> e in q.timers && e.at <= now
  {
    assert forall e :: e in q.timers ==> e.addr < UINTPTR_MAX;
  }

  lemma BeginOk(q: Queue, now: int, es: seq<Entry>)
    requires Indexed(q.heap, q.timers, q.active) && Expired(q, now, es)
    ensures Begin(q, now, es).Ok?
    ensures var r := Begin(q, now, es).value;
      r == q.(timers := q.timers - SetOf(es), active := q.active - IdsOf(q.heap, es),
              calling := true, canceling := {}, batch := es, pos := 0, now := now, alarm := None)
  {
    BatchIndexed(q.heap, q.timers, q.active, es);
    assert forall e :: e in es ==> e in q.timers;
  }

  lemma BeginAlarmed(q: Queue, now: int, es: seq<Entry>)
    requires Inv(q) && Expired(q, now, es) && now > 0
    ensures Alarmed(q.timers - SetOf(es), true, None)
  {
    BatchIsDue(q, now, es);
  }

  lemma NobodyDead(q: Queue, es: seq<Entry>)
    requires Inv(q) && q.batch == []
    ensures Buried(q.heap, q.dead, es, {})
  {
    assert forall a :: !Has([], a);
  }

  lemma BeginKeeps(q: Queue, e: Event)
    requires Inv(q) && e.EBegin? && Enabled(q, e)
    ensures Apply(q, e).Ok? && Inv(Apply(q, e).value)
  {
    assert q.batch == [] by {
      assert Phase(q);
    }
    hide Indexed, Placed, Buried, Numbered, Alarmed, Begin, IdsOf;
    BeginAlarmed(q, e.now, e.batch);
    NobodyDead(q, e.batch);
    BeginOk(q, e.now, e.batch);
    BatchIndexed(q.heap, q.timers, q.active, e.batch);
    BatchPlaced(q.heap, q.pending, q.timers, q.active, e.batch);
  }

  lemma RunKeepsInv(q: Queue, e: Event)
    requires Inv(q) && e.ERun? && Enabled(q, e)
    ensures Apply(q, e).Ok? && Inv(Apply(q, e).value)
  {
    assert q.batch[q.pos].addr in q.heap;
    hide Indexed, Alarmed, Buried, Placed;
  }

  // ---------------------------------------------------------------- a batch ends

  /** What holds while reset works through the batch. */
  ghost predicate Resetting(q: Queue) {
    && Indexed(q.heap, q.timers, q.active)
    && Placed(q.heap, q.pending, q.active, q.batch)
    && Numbered(q.heap, q.nextSn)
    && History(q.ran, q.dead, q.nextSn)
    && Buried(q.heap, q.dead, q.batch, q.canceling)
    && Alarmed(q.timers, true, q.alarm)
    && q.now > 0
  }

  lemma HasRest(batch: seq<Entry>)
    requires batch != []
    ensures forall b :: Has(batch, b) <==> b == batch[0].addr || Has(batch[1..], b)
  {
    forall b
      ensures Has(batch, b) <==> b == batch[0].addr || Has(batch[1..], b)
    {
      if Has(batch, b) && b != batch[0].addr {
        var i :| 0 <= i < |batch| && batch[i].addr == b;
        assert batch[1..][i - 1].addr == b;
      }
    }
  }

  lemma RestartPlaced(h: Heap, k: Heap, pending: set<Addr>, active: set<Id>, batch: seq<Entry>)
    requires Placed(h, pending, active, batch) && batch != []
    requires k.Keys == h.Keys && forall b :: b in h ==> k[b].sn == h[b].sn
    ensures Placed(k, pending, active + {IdIn(k, batch[0].addr)}, batch[1..])
  {
    var a := batch[0].addr;
    assert Has(batch, a);
    HasRest(batch);
  }

  lemma DropPlaced(h: Heap, pending: set<Addr>, active: set<Id>, batch: seq<Entry>)
    requires Placed(h, pending, active, batch) && batch != []
    ensures Placed(h - {batch[0].addr}, pending, active, batch[1..])
  {
    var a := batch[0].addr;
    assert Has(batch, a);
    HasRest(batch);
  }

  lemma ShortenBuried(h: Heap, k: Heap, dead: set<nat>, batch: seq<Entry>, canceling: set<Id>)
    requires Buried(h, dead, batch, canceling) && batch != []
    requires forall b :: b in k ==> b in h && k[b].sn == h[b].sn
    requires var a := batch[0].addr; a in k ==> k[a].sn !in dead
    ensures Buried(k, dead, batch[1..], canceling)
  {
    forall b | b in k && k[b].sn in dead
      ensures Has(batch[1..], b) && IdIn(k, b) in canceling
    {
      var i :| 0 <= i < |batch| && batch[i].addr == b;
      assert batch[1..][i - 1].addr == b;
    }
  }

  lemma RestartIndexed(h: Heap, timers: set<Entry>, active: set<Id>, a: Addr, t: Timer)
    requires Indexed(h, timers, active) && a in h && IdIn(h, a) !in active && t.sn == h[a].sn
    ensures Indexed(h[a := t], timers, active)
  {
  }

  lemma BatchFacts(q: Queue)
    requires Resetting(q) && q.batch != []
    ensures var a := q.batch[0].addr;
      && a in q.heap && IdIn(q.heap, a) !in q.active && |q.timers| == |q.active|
      && (q.heap[a].sn in q.dead ==> IdIn(q.heap, a) in q.canceling)
  {
  }

  lemma RestartNumbered(h: Heap, a: Addr, t: Timer, nextSn: nat)
    requires Numbered(h, nextSn) && a in h && t.sn == h[a].sn
    ensures Numbered(h[a := t], nextSn)
  {
  }

  lemma LateAlarmed(timers: set<Entry>, alarm: Option<Alarm>, x: Entry)
    requires Alarmed(timers, true, alarm) && x.at > 0
    ensures Alarmed(timers + {x}, true, alarm)
  {
  }

  /** The queue after reset has scheduled timer `t` at the front of the batch again. */
  function Restarted(q: Queue, a: Addr, t: Timer): Queue
    requires q.batch != []
  {
    q.(heap := q.heap[a := t], batch := q.batch[1..],
       timers := q.timers + {Entry(t.expiration, a)}, active := q.active + {Id(a, t.sn)})
  }

  lemma RestartIs(q: Queue, a: Addr, t: Timer)
    requires q.batch != [] && a == q.batch[0].addr && a in q.heap
    requires q.heap[a].repeat && IdAt(q, a) !in q.canceling
    requires t == q.heap[a].(expiration := q.now + q.heap[a].delta)
    requires |q.timers| == |q.active| && IdAt(q, a) !in q.active && Entry(t.expiration, a) !in q.timers
    ensures ResetOne(q) == Ok(Restarted(q, a, t))
  {
  }

  lemma RestartedKeeps(q: Queue, a: Addr, t: Timer)
    requires Resetting(q) && q.batch != [] && a == q.batch[0].addr && a in q.heap
    requires IdIn(q.heap, a) !in q.active && t.sn == q.heap[a].sn && t.sn !in q.dead && t.expiration > 0
    ensures Entry(t.expiration, a) !in q.timers
    ensures Resetting(Restarted(q, a, t))
  {
    var k := q.heap[a := t];
    hide Indexed, Placed, Buried, Numbered, Alarmed, History;
    assert k[a] == t && IdIn(k, a) == Id(a, t.sn);
    RestartNumbered(q.heap, a, t, q.nextSn);
    LateAlarmed(q.timers, q.alarm, Entry(t.expiration, a));
    RestartIndexed(q.heap, q.timers, q.active, a, t);
    InsertIndexed(k, q.timers, q.active, a);
    RestartPlaced(q.heap, k, q.pending, q.active, q.batch);
    ShortenBuried(q.heap, k, q.dead, q.batch, q.canceling);
  }

  lemma RestartKeeps(q: Queue)
    requires Resetting(q) && q.batch != []
    requires var a := q.batch[0].addr; a in q.heap && q.heap[a].repeat && IdAt(q, a) !in q.canceling
    ensures ResetOne(q).Ok? && Resetting(ResetOne(q).value) && ResetOne(q).value.batch == q.batch[1..]
  {
    BatchFacts(q);
    var a := q.batch[0].addr;
    var t := q.heap[a].(expiration := q.now + q.heap[a].delta);
    assert t.expiration > 0;
    hide Resetting, ResetOne;
    RestartedKeeps(q, a, t);
    RestartIs(q, a, t);
  }

  lemma DropIndexed(h: Heap, timers: set<Entry>, active: set<Id>, a: Addr, nextSn: nat)
    requires Indexed(h, timers, active) && Numbered(h, nextSn) && a in h && IdIn(h, a) !in active
    ensures Indexed(h - {a}, timers, active) && Numbered(h - {a}, nextSn)
  {
  }

  lemma DropKeeps(q: Queue)
    requires Resetting(q) && q.batch != []
    requires var a := q.batch[0].addr; a in q.heap && !(q.heap[a].repeat && IdAt(q, a) !in q.canceling)
    ensures ResetOne(q).Ok? && Resetting(ResetOne(q).value) && ResetOne(q).value.batch == q.batch[1..]
  {
    BatchFacts(q);
    var a := q.batch[0].addr;
    hide Indexed, Placed, Buried, Numbered;
    DropIndexed(q.heap, q.timers, q.active, a, q.nextSn);
    DropPlaced(q.heap, q.pending, q.active, q.batch);
    ShortenBuried(q.heap, q.heap - {a}, q.dead, q.batch, q.canceling);
  }

  /** A repeating timer that no callback cancelled is scheduled again; every other one is freed. */
  lemma ResetOneKeeps(q: Queue)
    requires Resetting(q) && q.batch != []
    ensures ResetOne(q).Ok? && Resetting(ResetOne(q).value)
    ensures ResetOne(q).value.batch == q.batch[1..]
  {
    BatchFacts(q);
    hide Resetting, ResetOne;
    if q.heap[q.batch[0].addr].repeat && IdAt(q, q.batch[0].addr) !in q.canceling {
      RestartKeeps(q);
    } else {
      DropKeeps(q);
    }
  }

  lemma {:induction false} ResetAllKeeps(q: Queue)
    requires Resetting(q)
    ensures ResetAll(q).Ok? && Resetting(ResetAll(q).value) && ResetAll(q).value.batch == []
    ensures ResetAll(q).value.calling == q.calling && ResetAll(q).value.pos == q.pos
    decreases |q.batch|
  {
    if q.batch != [] {
      ResetOneKeeps(q);
      hide Resetting;
      ResetAllKeeps(ResetOne(q).value);
    }
  }

  lemma {:induction false} FirstExists(ts: set<Entry>) returns (e: Entry)
    requires ts != {}
    ensures IsFirst(ts, e)
    decreases |ts|
  {
    e :| e in ts;
    if ts != {e} {
      var f := FirstExists(ts - {e});
      assert forall g :: g in ts ==> g == e || g in ts - {e};
      if Less(f, e) {
        e := f;
      }
    }
  }

  /** reset leaves the alarm covering every timer; a timer whose time is not valid was covered when a
      callback added it. */
  lemma RearmCovers(q: Queue, clock: int)
    requires Alarmed(q.timers, true, q.alarm)
    ensures Alarmed(q.timers, false, Rearm(q, clock).alarm)
    ensures Rearm(q, clock) == q.(alarm := Rearm(q, clock).alarm)
  {
    if q.timers != {} {
      var e := FirstExists(q.timers);
      assert exists f :: IsFirst(q.timers, f);
    }
  }

  lemma EndKeeps(q: Queue, e: Event)
    requires Inv(q) && e.EEnd? && Enabled(q, e)
    ensures Apply(q, e).Ok? && Inv(Apply(q, e).value)
  {
    var p := q.(calling := false, pos := 0);
    assert Resetting(p);
    ResetAllKeeps(p);
    RearmCovers(ResetAll(p).value, e.clock);
    hide Indexed, Placed, Buried, Numbered, Alarmed, ResetAll, Rearm;
  }

  lemma StepKeeps(q: Queue, e: Event)
    requires Inv(q) && Enabled(q, e)
    ensures Apply(q, e).Ok? && Inv(Apply(q, e).value)
  {
    hide Inv, Apply;
    match e
    case ENew(_, _, _, _) => NewKeeps(q, e);
    case EAdd(_, _) => AddKeeps(q, e);
    case ECancel(_) => CancelKeeps(q, e);
    case EBegin(_, _) => BeginKeeps(q, e);
    case ERun => RunKeepsInv(q, e);
    case EEnd(_) => EndKeeps(q, e);
  }

  // ---------------------------------------------------------------- one-shot timers run once

  ghost predicate Kinds(h: Heap, kind: map<nat, bool>, nextSn: nat) {
    && (forall a :: a in h ==> h[a].sn in kind && kind[h[a].sn] == h[a].repeat)
    && (forall s :: s in kind ==> s < nextSn)
  }

  /** A one-shot timer outside the batch has not run; none has run twice. */
  ghost predicate AtMostOnce(h: Heap, kind: map<nat, bool>, batch: seq<Entry>, ran: seq<nat>) {
    && (forall s :: s in kind && !kind[s] ==> Count(ran, s) <= 1)
    && (forall a :: a in h && !h[a].repeat && !Has(batch, a) ==> Count(ran, h[a].sn) == 0)
  }

  ghost predicate StillToRun(h: Heap, batch: seq<Entry>, pos: nat, ran: seq<nat>) {
    forall i :: pos <= i < |batch| && batch[i].addr in h && !h[batch[i].addr].repeat ==>
      Count(ran, h[batch[i].addr].sn) == 0
  }

  ghost predicate Once(q: Queue) {
    && Kinds(q.heap, q.kind, q.nextSn)
    && AtMostOnce(q.heap, q.kind, q.batch, q.ran) && StillToRun(q.heap, q.batch, q.pos, q.ran)
  }

  lemma NewOnce(q: Queue, e: Event)
    requires Inv(q) && Once(q) && e.ENew? && Enabled(q, e)
    ensures Once(Apply(q, e).value)
  {
    CountIn(q.ran, q.nextSn);
    assert q.nextSn !in q.ran;
    assert forall i :: 0 <= i < |q.batch| ==> q.batch[i].addr in q.heap;
  }

  lemma CancelOnce(q: Queue, e: Event)
    requires Inv(q) && Once(q) && e.ECancel?
    ensures CancelInLoop(q, e.id).Ok? && Once(CancelInLoop(q, e.id).value)
  {
    CancelKeeps(q, e);
  }

  lemma BeginOnce(q: Queue, e: Event)
    requires Inv(q) && Once(q) && e.EBegin? && Enabled(q, e)
    ensures Apply(q, e).Ok? && Once(Apply(q, e).value)
  {
    BeginOk(q, e.now, e.batch);
    assert q.batch == [] && forall a :: !Has(q.batch, a);
  }

  lemma RunOnce(q: Queue, e: Event)
    requires Inv(q) && Once(q) && e.ERun? && Enabled(q, e)
    ensures Apply(q, e).Ok? && Once(Apply(q, e).value)
  {
    var a := q.batch[q.pos].addr;
    assert a in q.heap && Has(q.batch, a);
    var sn := q.heap[a].sn;
    forall s: nat
      ensures Count(q.ran + [sn], s) == Count(q.ran, s) + if s == sn then 1 else 0
    {
      CountCat(q.ran, [sn], s);
      CountOne(sn, s);
    }
    assert forall b :: b in q.heap && b != a ==> q.heap[b].sn != sn;
    hide Count;
  }

  lemma ShortenOnce(h: Heap, k: Heap, kind: map<nat, bool>, batch: seq<Entry>, ran: seq<nat>, nextSn: nat)
    requires Kinds(h, kind, nextSn) && AtMostOnce(h, kind, batch, ran) && batch != []
    requires forall b :: b in k ==> b in h && k[b].sn == h[b].sn && k[b].repeat == h[b].repeat
    requires var a := batch[0].addr; a in k ==> k[a].repeat
    ensures Kinds(k, kind, nextSn) && AtMostOnce(k, kind, batch[1..], ran)
  {
    HasRest(batch);
    hide Has;
  }

  lemma ResetOneHeap(q: Queue)
    requires Resetting(q) && q.batch != []
    ensures ResetOne(q).Ok?
    ensures var k := ResetOne(q).value.heap;
      && (forall b :: b in k ==> b in q.heap && k[b].sn == q.heap[b].sn && k[b].repeat == q.heap[b].repeat)
      && (q.batch[0].addr in k ==> k[q.batch[0].addr].repeat)
  {
    BatchFacts(q);
    hide Resetting;
    ResetOneKeeps(q);
    hide Indexed, Placed;
  }

  lemma ResetOneFrame(q: Queue)
    requires q.batch != [] && ResetOne(q).Ok?
    ensures var r := ResetOne(q).value;
      r.kind == q.kind && r.nextSn == q.nextSn && r.ran == q.ran && r.batch == q.batch[1..]
  {
  }

  lemma ResetOnce(q: Queue)
    requires Resetting(q) && q.batch != []
    requires Kinds(q.heap, q.kind, q.nextSn) && AtMostOnce(q.heap, q.kind, q.batch, q.ran)
    ensures ResetOne(q).Ok?
    ensures var r := ResetOne(q).value;
      Kinds(r.heap, r.kind, r.nextSn) && AtMostOnce(r.heap, r.kind, r.batch, r.ran) && r.batch == q.batch[1..]
  {
    ResetOneHeap(q);
    ResetOneFrame(q);
    hide Resetting, Kinds, AtMostOnce, ResetOne;
    ShortenOnce(q.heap, ResetOne(q).value.heap, q.kind, q.batch, q.ran, q.nextSn);
  }

  lemma {:induction false} ResetAllOnce(q: Queue)
    requires Resetting(q) && Kinds(q.heap, q.kind, q.nextSn) && AtMostOnce(q.heap, q.kind, q.batch, q.ran)
    ensures ResetAll(q).Ok?
    ensures var r := ResetAll(q).value;
      Kinds(r.heap, r.kind, r.nextSn) && AtMostOnce(r.heap, r.kind, r.batch, r.ran) && r.batch == []
    decreases |q.batch|
  {
    if q.batch != [] {
      ResetOneKeeps(q);
      ResetOnce(q);
      hide Resetting, Kinds, AtMostOnce;
      ResetAllOnce(ResetOne(q).value);
    }
  }

  lemma EndOnce(q: Queue, e: Event)
    requires Inv(q) && Once(q) && e.EEnd? && Enabled(q, e)
    ensures Apply(q, e).Ok? && Once(Apply(q, e).value)
  {
    var p := q.(calling := false, pos := 0);
    assert Resetting(p);
    ResetAllOnce(p);
    RearmIs(ResetAll(p).value, e.clock);
  }

  lemma RearmIs(q: Queue, clock: int)
    ensures Rearm(q, clock) == q.(alarm := Rearm(q, clock).alarm)
  {
  }

  lemma StepOnce(q: Queue, e: Event)
    requires Inv(q) && Once(q) && Enabled(q, e)
    ensures Apply(q, e).Ok? && Once(Apply(q, e).value)
  {
    StepKeeps(q, e);
    match e
    case ENew(_, _, _, _) => NewOnce(q, e);
    case EAdd(_, _) => hide Inv, Kinds, AtMostOnce, StillToRun;
    case ECancel(_) => hide Inv, CancelInLoop; CancelOnce(q, e);
    case EBegin(_, _) => hide Inv, Begin; BeginOnce(q, e);
    case ERun => RunOnce(q, e);
    case EEnd(_) => hide Inv, End; EndOnce(q, e);
  }

  // ---------------------------------------------------------------- whole runs

  ghost predicate Feasible(q: Queue, es: seq<Event>)
    decreases |es|
  {
    es != [] ==>
      Enabled(q, es[0]) && (Apply(q, es[0]).Ok? ==> Feasible(Apply(q, es[0]).value, es[1..]))
  }

  ghost function Run(q: Queue, es: seq<Event>): Outcome<Queue>
    requires Feasible(q, es)
    decreases |es|
  {
    if es == [] then Ok(q)
    else
      var r :- Apply(q, es[0]);
      Run(r, es[1..])
  }

  lemma {:induction false} RunKeeps(q: Queue, es: seq<Event>)
    requires Inv(q) && Once(q) && Feasible(q, es)
    ensures Run(q, es).Ok? && Inv(Run(q, es).value) && Once(Run(q, es).value)
    decreases |es|
  {
    hide Inv, Once, Apply;
    if es != [] {
      StepKeeps(q, es[0]);
      StepOnce(q, es[0]);
      RunKeeps(Apply(q, es[0]).value, es[1..]);
    }
  }

  /** Over any sequence of additions, cancellations and batches, with callbacks adding and cancelling in
      between: no assertion fails and nothing is freed twice, the indexes agree, every timer is in exactly
      one place, and one-shot timers run at most once. */
  lemma IndexesAlwaysAgree(q: Queue, es: seq<Event>)
    requires Init(q) && Feasible(q, es)
    ensures Run(q, es).Ok?
    ensures var r := Run(q, es).value;
      && Indexed(r.heap, r.timers, r.active)
      && Placed(r.heap, r.pending, r.active, r.batch)
      && (forall s :: s in r.kind && !r.kind[s] ==> Count(r.ran, s) <= 1)
  {
    InitInv(q);
    RunKeeps(q, es);
  }

  /** Whenever timers are scheduled and no batch is running, the alarm is set, and goes off by the time of
      every timer or within 100 microseconds of having been set. */
  lemma AlarmAlwaysArmed(q: Queue, es: seq<Event>, e: Entry)
    requires Init(q) && Feasible(q, es)
    ensures Run(q, es).Ok?
    ensures var r := Run(q, es).value; !r.calling && e in r.timers ==> Covers(r.alarm, e)
  {
    InitInv(q);
    RunKeeps(q, es);
  }

  /** No timer of a running batch is freed or changed before the batch ends. */
  lemma BatchSurvives(q: Queue, e: Event, i: nat)
    requires Inv(q) && Enabled(q, e) && !e.EEnd? && i < |q.batch|
    ensures Apply(q, e).Ok?
    ensures var r := Apply(q, e).value; var a := q.batch[i].addr;
      r.batch == q.batch && a in q.heap && a in r.heap && r.heap[a] == q.heap[a]
  {
    StepKeeps(q, e);
    assert q.batch[i].addr in q.heap && IdIn(q.heap, q.batch[i].addr) !in q.active;
  }

  /** An id cancels the timer it was made for or nothing: a stale id leaves alone whatever now lives at
      its address. */
  lemma CancelHitsOnlyItsTimer(q: Queue, id: Id)
    requires Inv(q)
    ensures CancelInLoop(q, id).Ok?
    ensures var r := CancelInLoop(q, id).value;
      && (id in q.active ==>
            && id.addr in q.heap && q.heap[id.addr].sn == id.sn
            && r.heap == q.heap - {id.addr} && r.active == q.active - {id})
      && (id !in q.active ==> r.heap == q.heap && r.timers == q.timers && r.active == q.active)
  {
    CancelKeeps(q, ECancel(id));
  }

  lemma DeadStaysDead(q: Queue, e: Event)
    requires Inv(q) && Enabled(q, e)
    ensures Apply(q, e).Ok? && q.dead <= Apply(q, e).value.dead
  {
    StepKeeps(q, e);
    if e.EEnd? {
      ResetAllDead(q.(calling := false, pos := 0));
      RearmIs(ResetAll(q.(calling := false, pos := 0)).value, e.clock);
    }
  }

  lemma {:induction false} ResetAllDead(q: Queue)
    ensures ResetAll(q).Ok? ==> ResetAll(q).value.dead == q.dead
    decreases |q.batch|
  {
    if q.batch != [] && ResetOne(q).Ok? && |ResetOne(q).value.batch| < |q.batch| {
      ResetAllDead(ResetOne(q).value);
    }
  }

  lemma {:induction false} DeadForEver(q: Queue, es: seq<Event>)
    requires Inv(q) && Feasible(q, es)
    ensures Run(q, es).Ok? && Inv(Run(q, es).value) && q.dead <= Run(q, es).value.dead
    decreases |es|
  {
    hide Inv, Apply;
    if es != [] {
      StepKeeps(q, es[0]);
      DeadStaysDead(q, es[0]);
      DeadForEver(Apply(q, es[0]).value, es[1..]);
    }
  }

  /** A timer cancelled while scheduled or by a callback of its own batch is never scheduled again, and
      once no batch is running it has been freed. */
  lemma CancelledNeverReturns(q: Queue, es: seq<Event>, s: nat)
    requires Inv(q) && Feasible(q, es) && s in q.dead
    ensures Run(q, es).Ok?
    ensures var r := Run(q, es).value;
      && (forall id :: id in r.active ==> id.sn != s)
      && (!r.calling ==> forall a :: a in r.heap ==> r.heap[a].sn != s)
  {
    DeadForEver(q, es);
    var r := Run(q, es).value;
    forall id | id in r.active
      ensures id.sn != s
    {
      ScheduledIsNotDead(r, id);
    }
    assert !r.calling ==> r.batch == [];
  }

  lemma ScheduledIsNotDead(q: Queue, id: Id)
    requires Inv(q) && id in q.active
    ensures id.sn !in q.dead
  {
    ActiveFacts(q, id);
    assert forall i :: 0 <= i < |q.batch| ==> IdIn(q.heap, q.batch[i].addr) !in q.active;
  }

  /** Cancelling a timer whose insertion is still queued has no effect: it is scheduled all the same.
      Every other live timer is descheduled at once or not scheduled again. */
  lemma CancelTakesEffectIffInserted(q: Queue, a: Addr, clock: int)
    requires Inv(q) && a in q.heap
    ensures CancelInLoop(q, IdAt(q, a)).Ok?
    ensures var r := CancelInLoop(q, IdAt(q, a)).value;
      && (a in q.pending ==>
            r.heap == q.heap && AddInLoop(r, a, clock).Ok? && IdAt(q, a) in AddInLoop(r, a, clock).value.active)
      && (a !in q.pending ==> q.heap[a].sn in r.dead)
  {
    CancelKeeps(q, ECancel(IdAt(q, a)));
    if a in q.pending {
      AddKeeps(CancelInLoop(q, IdAt(q, a)).value, EAdd(a, clock));
    } else if IdAt(q, a) !in q.active {
      assert Has(q.batch, a) && q.calling;
    }
  }
}
