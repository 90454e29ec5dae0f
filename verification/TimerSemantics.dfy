/** What timers are for: those that are due run, in order, once each; repeating ones come back an interval later;
    none runs before its time. */
module TimerSemantics {
  import opened Base
  import opened Timers

  // ---------------------------------------------------------------- a timer is added

  /** addTimer makes a timer with the time and interval it was given and a number of its own, which waits for
      its insertion; no other timer changes. */
  lemma AddedAsGiven(q: Queue, e: Event)
    requires Inv(q) && e.ENew? && Enabled(q, e)
    ensures Apply(q, e).Ok?
    ensures var r := Apply(q, e).value;
      && e.addr in r.pending && e.addr in r.heap
      && r.heap[e.addr].expiration == e.when && r.heap[e.addr].repeat == e.repeat && r.heap[e.addr].delta == e.delta
      && (forall a :: a in q.heap ==> a in r.heap && r.heap[a] == q.heap[a] && q.heap[a].sn != r.heap[e.addr].sn)
  {
  }

  /** Its insertion schedules it for that time; the alarm is set for it, at least 100 microseconds ahead, if it
      is earlier than everything scheduled, and otherwise stays. */
  lemma InsertedIsScheduled(q: Queue, a: Addr, clock: int)
    requires Inv(q) && a in q.pending
    ensures AddInLoop(q, a, clock).Ok? && a in q.heap
    ensures var r, at := AddInLoop(q, a, clock).value, q.heap[a].expiration;
      && r.timers == q.timers + {Entry(at, a)} && r.active == q.active + {IdIn(q.heap, a)}
      && a !in r.pending && r.heap == q.heap
      && r.alarm ==
           if forall f :: f in q.timers ==> at < f.at
           then Some(Alarm(if at < clock + 100 then clock + 100 else at, clock)) else q.alarm
  {
    PendingFacts(q, a);
    InsertIndexed(q.heap, q.timers, q.active, a) by {
      assert Indexed(q.heap, q.timers, q.active);
    }
    hide Inv;
    AddIs(q, a, clock);
  }

  // ---------------------------------------------------------------- a batch runs

  /** The sequence numbers of the timers of a batch, in its order. */
  ghost function Numbers(h: Heap, es: seq<Entry>): seq<nat> {
    seq(|es|, i requires 0 <= i < |es| => if es[i].addr in h then h[es[i].addr].sn else 0)
  }

  /** The batch that began in q is running, its timers are as they were, and the first of them have run. */
  ghost predicate Underway(q: Queue, batch: seq<Entry>, t: Queue) {
    && t.calling && t.batch == batch && t.pos <= |batch|
    && (forall i :: 0 <= i < |batch| ==>
          batch[i].addr in q.heap && batch[i].addr in t.heap && t.heap[batch[i].addr] == q.heap[batch[i].addr])
    && t.ran == q.ran + Numbers(q.heap, batch[..t.pos])
  }

  lemma Scheduled(q: Queue)
    requires Inv(q)
    ensures forall e :: e in q.timers ==> e.addr in q.heap && q.heap[e.addr].expiration == e.at
    ensures forall x, y :: x in q.heap && y in q.heap && q.heap[x].sn == q.heap[y].sn ==> x == y
  {
  }

  /** The members of a batch: scheduled, due, and of different timers. */
  lemma BatchTimers(q: Queue, now: int, batch: seq<Entry>)
    requires Inv(q) && Expired(q, now, batch)
    ensures forall i :: 0 <= i < |batch| ==> batch[i] in q.timers && batch[i].at <= now && batch[i].addr in q.heap
    ensures forall i, j :: 0 <= i < j < |batch| ==> batch[i].addr != batch[j].addr
  {
    BatchIsDue(q, now, batch);
    Scheduled(q);
    hide Inv;
    assert forall i :: 0 <= i < |batch| ==> batch[i] in batch;
    forall i, j | 0 <= i < j < |batch|
      ensures batch[i].addr != batch[j].addr
    {
      assert batch[i] in q.timers && batch[j] in q.timers && Less(batch[i], batch[j]);
    }
  }

  lemma BeginUnderway(q: Queue, now: int, batch: seq<Entry>)
    requires Inv(q) && Enabled(q, EBegin(now, batch))
    ensures Apply(q, EBegin(now, batch)).Ok? && Underway(q, batch, Apply(q, EBegin(now, batch)).value)
  {
    BatchTimers(q, now, batch);
    BeginIs(q, now, batch);
    hide Inv, Apply, Expired;
    assert batch[..0] == [] && q.ran + Numbers(q.heap, []) == q.ran;
  }

  lemma BeginIs(q: Queue, now: int, batch: seq<Entry>)
    requires Inv(q) && Enabled(q, EBegin(now, batch))
    ensures Apply(q, EBegin(now, batch)).Ok?
    ensures var b := Apply(q, EBegin(now, batch)).value;
      b.calling && b.batch == batch && b.pos == 0 && b.now == now && b.heap == q.heap && b.ran == q.ran
  {
    assert Indexed(q.heap, q.timers, q.active);
    hide Inv, Indexed, Expired, Begin;
    BeginOk(q, now, batch);
  }

  lemma RanFrame(t: Queue, e: Event)
    requires Enabled(t, e) && Apply(t, e).Ok? && !e.EEnd? && !e.EBegin?
    ensures var u := Apply(t, e).value;
      && u.calling == t.calling
      && (!e.ERun? ==> u.ran == t.ran && u.pos == t.pos)
      && (e.ERun? ==> t.batch[t.pos].addr in t.heap && u.pos == t.pos + 1
                      && u.ran == t.ran + [t.heap[t.batch[t.pos].addr].sn])
  {
  }

  lemma StepUnderway(q: Queue, batch: seq<Entry>, t: Queue, e: Event)
    requires Inv(t) && Underway(q, batch, t) && Enabled(t, e) && !e.EEnd?
    ensures Apply(t, e).Ok? && Underway(q, batch, Apply(t, e).value)
  {
    hide Inv, Apply;
    StepKeeps(t, e);
    var u := Apply(t, e).value;
    RanFrame(t, e);
    forall i | 0 <= i < |batch|
      ensures u.batch == batch && batch[i].addr in u.heap && u.heap[batch[i].addr] == t.heap[batch[i].addr]
    {
      BatchSurvives(t, e, i);
    }
    BatchFrame(t, e);
    if e.ERun? {
      NumbersNext(q.heap, batch, t.pos);
    }
  }

  lemma BatchFrame(t: Queue, e: Event)
    requires Enabled(t, e) && Apply(t, e).Ok? && !e.EEnd? && t.calling
    ensures Apply(t, e).value.batch == t.batch
  {
  }

  lemma NumbersNext(h: Heap, batch: seq<Entry>, pos: nat)
    requires pos < |batch| && batch[pos].addr in h
    ensures Numbers(h, batch[..pos + 1]) == Numbers(h, batch[..pos]) + [h[batch[pos].addr].sn]
  {
  }

  lemma {:induction false} RunUnderway(q: Queue, batch: seq<Entry>, t: Queue, es: seq<Event>)
    requires Inv(t) && Underway(q, batch, t) && Feasible(t, es) && forall e :: e in es ==> !e.EEnd?
    ensures Run(t, es).Ok? && Inv(Run(t, es).value) && Underway(q, batch, Run(t, es).value)
    decreases |es|
  {
    hide Inv, Apply, Underway, Enabled;
    if es != [] {
      assert es[0] in es && forall e :: e in es[1..] ==> e in es;
      StepKeeps(t, es[0]);
      StepUnderway(q, batch, t, es[0]);
      RunUnderway(q, batch, Apply(t, es[0]).value, es[1..]);
    }
  }

  /** Some scheduled timer with this number has its time at or before `now`. */
  ghost predicate Due(q: Queue, now: int, s: nat) {
    exists e :: e in q.timers && e.at <= now && e.addr in q.heap && q.heap[e.addr].sn == s
  }

  lemma NumbersDiffer(q: Queue, now: int, batch: seq<Entry>)
    requires Inv(q) && Enabled(q, EBegin(now, batch))
    ensures var ns := Numbers(q.heap, batch);
      && (forall i, j :: 0 <= i < j < |ns| ==> ns[i] != ns[j])
      && (forall s :: s in ns <==> Due(q, now, s))
  {
    BatchIsDue(q, now, batch);
    BatchTimers(q, now, batch);
    Scheduled(q);
    hide Inv, Expired;
    var ns := Numbers(q.heap, batch);
    forall e | e in q.timers && e.at <= now
      ensures q.heap[e.addr].sn in ns
    {
      assert e in batch;
      var i :| 0 <= i < |batch| && batch[i] == e;
      assert ns[i] == q.heap[e.addr].sn;
    }
  }

  /** Whatever callbacks and other threads do meanwhile: when a batch that began at `now` ends, exactly the
      timers with an expiration not later than `now` have run since, in the order of their expiration, each
      once. */
  lemma DueTimersRun(q: Queue, now: int, batch: seq<Entry>, es: seq<Event>, clock: int)
    requires Inv(q) && Enabled(q, EBegin(now, batch)) && Apply(q, EBegin(now, batch)).Ok?
    requires Feasible(Apply(q, EBegin(now, batch)).value, es) && forall e :: e in es ==> !e.EEnd?
    requires Run(Apply(q, EBegin(now, batch)).value, es).Ok?
    requires Enabled(Run(Apply(q, EBegin(now, batch)).value, es).value, EEnd(clock))
    ensures var ns := Numbers(q.heap, batch);
      && Run(Apply(q, EBegin(now, batch)).value, es).value.ran == q.ran + ns
      && Sorted(batch)
      && (forall i, j :: 0 <= i < j < |ns| ==> ns[i] != ns[j])
      && (forall s :: s in ns <==> Due(q, now, s))
  {
    hide Inv, Apply, Feasible, Run, Due, Numbers;
    var b := Apply(q, EBegin(now, batch)).value;
    NumbersDiffer(q, now, batch);
    BeginUnderway(q, now, batch);
    BeginKeeps(q, EBegin(now, batch));
    RunUnderway(q, batch, b, es);
    assert batch[..|batch|] == batch;
  }

  // ---------------------------------------------------------------- a batch ends

  /** What becomes of a timer that has run: it comes back an interval after `now`, or it is gone. */
  ghost predicate Treated(h: Heap, now: int, canceling: set<Id>, a: Addr, k: Heap) {
    a in h &&
    if h[a].repeat && Id(a, h[a].sn) !in canceling then a in k && k[a] == h[a].(expiration := now + h[a].delta)
    else a !in k
  }

  ghost predicate Untouched(h: Heap, k: Heap, b: Addr) {
    b in h && b in k && k[b] == h[b]
  }

  lemma ResetOneOutcome(q: Queue)
    requires q.batch != [] && ResetOne(q).Ok?
    ensures var r := ResetOne(q).value;
      && Treated(q.heap, q.now, q.canceling, q.batch[0].addr, r.heap)
      && (forall b :: b in q.heap && b != q.batch[0].addr ==> Untouched(q.heap, r.heap, b))
      && (forall b :: b in r.heap ==> b in q.heap)
      && r.now == q.now && r.canceling == q.canceling && r.batch == q.batch[1..]
  {
  }

  lemma BatchDistinct(q: Queue)
    requires Resetting(q)
    ensures forall i, j :: 0 <= i < j < |q.batch| ==> q.batch[i].addr != q.batch[j].addr
    ensures forall i :: 0 <= i < |q.batch| ==> q.batch[i].addr in q.heap
  {
  }

  /** The batch has been treated, and nothing else touched. */
  ghost predicate AllTreated(h: Heap, now: int, canceling: set<Id>, batch: seq<Entry>, k: Heap) {
    && (forall i :: 0 <= i < |batch| ==> Treated(h, now, canceling, batch[i].addr, k))
    && (forall b :: b in h && (forall i :: 0 <= i < |batch| ==> batch[i].addr != b) ==> Untouched(h, k, b))
    && (forall b :: b in k ==> b in h)
  }

  lemma {:induction false} ResetAllOutcome(q: Queue)
    requires Resetting(q)
    ensures ResetAll(q).Ok? && AllTreated(q.heap, q.now, q.canceling, q.batch, ResetAll(q).value.heap)
    decreases |q.batch|
  {
    hide Resetting, ResetOne, Treated, Untouched, AllTreated;
    if q.batch == [] {
      NothingTreated(q.heap, q.now, q.canceling);
    } else {
      BatchDistinct(q);
      ResetOneKeeps(q);
      ResetOneOutcome(q);
      var p := ResetOne(q).value;
      ResetAllOutcome(p);
      TreatedAll(q.heap, p.heap, ResetAll(p).value.heap, q.now, q.canceling, q.batch);
    }
  }

  lemma NothingTreated(h: Heap, now: int, canceling: set<Id>)
    ensures AllTreated(h, now, canceling, [], h)
  {
  }

  /** The first member of the batch was treated on the way from h to j, the others from j to k. */
  lemma TreatedAll(h: Heap, j: Heap, k: Heap, now: int, canceling: set<Id>, batch: seq<Entry>)
    requires batch != []
    requires forall x, y :: 0 <= x < y < |batch| ==> batch[x].addr != batch[y].addr
    requires forall x :: 0 <= x < |batch| ==> batch[x].addr in h
    requires Treated(h, now, canceling, batch[0].addr, j)
    requires forall b :: b in h && b != batch[0].addr ==> Untouched(h, j, b)
    requires forall b :: b in j ==> b in h
    requires AllTreated(j, now, canceling, batch[1..], k)
    ensures AllTreated(h, now, canceling, batch, k)
  {
    var rest := batch[1..];
    assert forall x :: 0 <= x < |rest| ==> rest[x] == batch[x + 1];
    forall x | 0 <= x < |batch|
      ensures Treated(h, now, canceling, batch[x].addr, k)
    {
      if x > 0 {
        assert rest[x - 1] == batch[x];
        assert Untouched(h, j, batch[x].addr);
      }
    }
    forall b | b in h && (forall x :: 0 <= x < |batch| ==> batch[x].addr != b)
      ensures Untouched(h, k, b)
    {
      assert Untouched(h, j, b);
    }
  }

  lemma EndHeap(q: Queue, clock: int)
    requires Inv(q) && Enabled(q, EEnd(clock))
    ensures Apply(q, EEnd(clock)).Ok?
    ensures AllTreated(q.heap, q.now, q.canceling, q.batch, Apply(q, EEnd(clock)).value.heap)
  {
    var p := q.(calling := false, pos := 0);
    assert Resetting(p);
    hide Inv, Resetting, AllTreated;
    ResetAllOutcome(p);
    RearmIs(ResetAll(p).value, clock);
    hide ResetAll, Rearm;
  }

  /** A timer that exists and is not waiting for insertion is scheduled, when no batch is running. */
  lemma AtHome(q: Queue, a: Addr)
    requires Inv(q) && !q.calling && a in q.heap && a !in q.pending
    ensures Entry(q.heap[a].expiration, a) in q.timers && IdIn(q.heap, a) in q.active
  {
  }

  /** At the end of a batch each of its timers is scheduled again for exactly one interval after `now` if it
      repeats and no callback has cancelled it, and has been freed otherwise. */
  lemma RepeatsOnTime(q: Queue, clock: int, i: nat)
    requires Inv(q) && Enabled(q, EEnd(clock)) && i < |q.batch|
    ensures Apply(q, EEnd(clock)).Ok? && q.batch[i].addr in q.heap
    ensures var r, a := Apply(q, EEnd(clock)).value, q.batch[i].addr;
      if q.heap[a].repeat && IdIn(q.heap, a) !in q.canceling then
        && a in r.heap && r.heap[a] == q.heap[a].(expiration := q.now + q.heap[a].delta)
        && Entry(q.now + q.heap[a].delta, a) in r.timers
      else a !in r.heap
  {
    hide Inv, Apply, Untouched;
    EndKeeps(q, EEnd(clock));
    EndHeap(q, clock);
    var r, a := Apply(q, EEnd(clock)).value, q.batch[i].addr;
    assert Treated(q.heap, q.now, q.canceling, a, r.heap);
    NotPending(q, i);
    PendingFrame(q, clock);
    EndCalm(q, clock);
    if a in r.heap {
      AtHome(r, a);
    }
  }

  lemma NotPending(q: Queue, i: nat)
    requires Inv(q) && i < |q.batch|
    ensures q.batch[i].addr !in q.pending
  {
    assert Has(q.batch, q.batch[i].addr);
  }

  lemma {:induction false} ResetAllPending(q: Queue)
    ensures ResetAll(q).Ok? ==> ResetAll(q).value.pending == q.pending && ResetAll(q).value.calling == q.calling
    decreases |q.batch|
  {
    if q.batch != [] && ResetOne(q).Ok? && |ResetOne(q).value.batch| < |q.batch| {
      ResetAllPending(ResetOne(q).value);
    }
  }

  lemma PendingFrame(q: Queue, clock: int)
    requires Enabled(q, EEnd(clock)) && Apply(q, EEnd(clock)).Ok?
    ensures Apply(q, EEnd(clock)).value.pending == q.pending
  {
    ResetAllPending(q.(calling := false, pos := 0));
  }

  lemma EndCalm(q: Queue, clock: int)
    requires Enabled(q, EEnd(clock)) && Apply(q, EEnd(clock)).Ok?
    ensures !Apply(q, EEnd(clock)).value.calling
  {
    ResetAllPending(q.(calling := false, pos := 0));
  }

  /** At the end of a batch the alarm is set for the earliest timer, but at least 100 microseconds ahead. */
  lemma RearmExact(q: Queue, clock: int, e: Entry)
    requires IsFirst(q.timers, e) && e.at > 0
    ensures Rearm(q, clock).alarm == Some(Alarm(if e.at < clock + 100 then clock + 100 else e.at, clock))
  {
  }

  // ---------------------------------------------------------------- not before its time

  /** The members of a running batch are due, and those that have been called have run. */
  ghost predicate Punctual(q: Queue) {
    && (forall i :: 0 <= i < |q.batch| ==>
          q.batch[i].addr in q.heap && q.batch[i].at == q.heap[q.batch[i].addr].expiration <= q.now)
    && (forall i :: 0 <= i < q.pos && i < |q.batch| && q.batch[i].addr in q.heap ==>
          q.heap[q.batch[i].addr].sn in q.ran)
  }

  /** The timer with this number, if it has not run yet, expires at `when`. */
  ghost predicate Expects(q: Queue, s: nat, when: int) {
    && s < q.nextSn
    && forall a :: a in q.heap && q.heap[a].sn == s && s !in q.ran ==> q.heap[a].expiration == when
  }

  lemma BeginPunctual(q: Queue, e: Event)
    requires Inv(q) && e.EBegin? && Enabled(q, e)
    ensures Apply(q, e).Ok? && Punctual(Apply(q, e).value)
  {
    hide Inv, Apply, Expired;
    BatchTimers(q, e.now, e.batch);
    BeginIs(q, e.now, e.batch);
    Scheduled(q);
  }

  lemma EndPunctual(q: Queue, e: Event)
    requires Inv(q) && e.EEnd? && Enabled(q, e)
    ensures Apply(q, e).Ok? && Punctual(Apply(q, e).value)
  {
    EndKeeps(q, e);
    EndCalm(q, e.clock);
    var r := Apply(q, e).value;
    assert r.batch == [] by {
      assert Phase(r);
    }
  }

  lemma OtherPunctual(q: Queue, e: Event)
    requires Inv(q) && Punctual(q) && Enabled(q, e) && !e.EBegin? && !e.EEnd?
    ensures Apply(q, e).Ok? && Punctual(Apply(q, e).value)
  {
    hide Inv, Apply;
    StepKeeps(q, e);
    var r := Apply(q, e).value;
    RanFrame(q, e);
    OtherFrame(q, e);
    forall i | 0 <= i < |q.batch|
      ensures q.batch[i].addr in r.heap && r.heap[q.batch[i].addr] == q.heap[q.batch[i].addr]
    {
      BatchSurvives(q, e, i);
    }
  }

  lemma OtherFrame(q: Queue, e: Event)
    requires Enabled(q, e) && Apply(q, e).Ok? && !e.EBegin? && !e.EEnd?
    ensures Apply(q, e).value.batch == q.batch && Apply(q, e).value.now == q.now
    ensures q.nextSn <= Apply(q, e).value.nextSn
  {
  }

  lemma StepPunctual(q: Queue, e: Event)
    requires Inv(q) && Punctual(q) && Enabled(q, e)
    ensures Apply(q, e).Ok? && Inv(Apply(q, e).value) && Punctual(Apply(q, e).value)
  {
    hide Inv, Punctual, Apply;
    StepKeeps(q, e);
    if e.EBegin? {
      BeginPunctual(q, e);
    } else if e.EEnd? {
      EndPunctual(q, e);
    } else {
      OtherPunctual(q, e);
    }
  }

  lemma OtherExpects(q: Queue, e: Event, s: nat, when: int)
    requires Expects(q, s, when) && Enabled(q, e) && Apply(q, e).Ok? && !e.EEnd?
    ensures Expects(Apply(q, e).value, s, when)
  {
  }

  lemma {:induction false} ResetAllFrame(q: Queue)
    ensures ResetAll(q).Ok? ==> ResetAll(q).value.ran == q.ran && ResetAll(q).value.nextSn == q.nextSn
    decreases |q.batch|
  {
    if q.batch != [] && ResetOne(q).Ok? && |ResetOne(q).value.batch| < |q.batch| {
      ResetAllFrame(ResetOne(q).value);
    }
  }

  lemma EndFrame(q: Queue, clock: int)
    requires Enabled(q, EEnd(clock)) && Apply(q, EEnd(clock)).Ok?
    ensures Apply(q, EEnd(clock)).value.ran == q.ran && Apply(q, EEnd(clock)).value.nextSn == q.nextSn
  {
    ResetAllFrame(q.(calling := false, pos := 0));
  }

  lemma EndExpects(q: Queue, e: Event, s: nat, when: int)
    requires Inv(q) && Punctual(q) && Expects(q, s, when) && e.EEnd? && Enabled(q, e)
    ensures Apply(q, e).Ok? && Expects(Apply(q, e).value, s, when)
  {
    hide Inv, Apply;
    EndHeap(q, e.clock);
    EndFrame(q, e.clock);
    var r := Apply(q, e).value;
    forall i | 0 <= i < |q.batch| && q.batch[i].addr in r.heap
      ensures r.heap[q.batch[i].addr].sn in q.ran
    {
      assert Treated(q.heap, q.now, q.canceling, q.batch[i].addr, r.heap);
    }
    forall a | a in r.heap && r.heap[a].sn == s && s !in r.ran
      ensures r.heap[a].expiration == when
    {
      assert Untouched(q.heap, r.heap, a);
    }
  }

  lemma {:induction false} RunExpects(q: Queue, es: seq<Event>, s: nat, when: int)
    requires Inv(q) && Punctual(q) && Expects(q, s, when) && Feasible(q, es)
    ensures Run(q, es).Ok? && Punctual(Run(q, es).value) && Expects(Run(q, es).value, s, when)
    decreases |es|
  {
    hide Inv, Punctual, Expects, Apply, Enabled;
    if es != [] {
      StepPunctual(q, es[0]);
      if es[0].EEnd? {
        EndExpects(q, es[0], s, when);
      } else {
        OtherExpects(q, es[0], s, when);
      }
      RunExpects(Apply(q, es[0]).value, es[1..], s, when);
    }
  }

  lemma NewExpects(q: Queue, e: Event)
    requires Inv(q) && e.ENew? && Enabled(q, e)
    ensures Apply(q, e).Ok? && Expects(Apply(q, e).value, q.nextSn, e.when)
  {
  }

  /** A timer does not run before the time it was added for: in every later state in which it is about to
      run for the first time, the time of the batch is not before `when`. */
  lemma NeverEarly(q: Queue, e: Event, es: seq<Event>)
    requires Inv(q) && Punctual(q) && e.ENew? && Enabled(q, e) && Apply(q, e).Ok? && Feasible(Apply(q, e).value, es)
    ensures Run(Apply(q, e).value, es).Ok?
    ensures var t, s := Run(Apply(q, e).value, es).value, q.nextSn;
      t.pos < |t.batch| && s !in t.ran && t.batch[t.pos].addr in t.heap && t.heap[t.batch[t.pos].addr].sn == s ==>
      t.now >= e.when
  {
    NewExpects(q, e);
    StepPunctual(q, e);
    hide Inv, Apply, Enabled;
    RunExpects(Apply(q, e).value, es, q.nextSn, e.when);
  }

  lemma StartPunctual(q: Queue)
    requires Init(q)
    ensures Inv(q) && Punctual(q)
  {
    InitInv(q);
  }
}
