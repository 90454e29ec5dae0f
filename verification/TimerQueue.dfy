/** The timer queue as the object it is; its invariant is that of module Timers. */
module TimerQueues {
  import opened Base
  import opened Timers

  class TimerQueue {
    var heap: map<Addr, Timer>      // the timers that `new` has made and `delete` has not
    var pending: set<Addr>
    var timers: set<Entry>
    var active: set<Id>
    var calling: bool
    var canceling: set<Id>
    var batch: seq<Entry>
    var pos: nat
    var now: int
    var nextSn: nat
    var alarm: Option<Alarm>
    ghost var ran: seq<nat>
    ghost var dead: set<nat>
    ghost var kind: map<nat, bool>

    ghost function View(): Queue
      reads this
    {
      Queue(heap, pending, timers, active, calling, canceling, batch, pos, now, nextSn, alarm, ran, dead, kind)
    }

    ghost predicate Valid()
      reads this
    {
      Inv(View())
    }

    constructor ()
      ensures Init(View()) && Valid()
    {
      heap, pending, timers, active, calling, canceling := map[], {}, {}, {}, false, {};
      batch, pos, now, nextSn, alarm, ran, dead, kind := [], 0, 0, 0, None, [], {}, map[];
      new;
      InitInv(View());
    }

    /** addTimer up to the point where the insertion is handed to the loop. */
    method NewTimer(addr: Addr, when: int, repeat: bool, delta: nat) returns (id: Id)
      requires Valid() && Enabled(View(), ENew(addr, when, repeat, delta))
      modifies this
      ensures Valid() && Apply(old(View()), ENew(addr, when, repeat, delta)) == Ok(View())
      ensures id == Id(addr, old(nextSn))
    {
      NewKeeps(View(), ENew(addr, when, repeat, delta));
      heap := heap[addr := Timer(when, repeat, delta, nextSn)];
      pending := pending + {addr};
      id := Id(addr, nextSn);
      kind := kind[nextSn := repeat];
      nextSn := nextSn + 1;
    }

    /** begin() of the list ordered by expiration. */
    method First() returns (e: Entry)
      requires timers != {}
      ensures IsFirst(timers, e)
    {
      ghost var f := FirstExists(timers);
      e :| e in timers && IsFirst(timers, e);
    }

    method InsertTimer(addr: Addr) returns (earliestChanged: bool)
      requires Insert(View(), addr).Ok?
      modifies this`timers, this`active
      ensures Insert(old(View()), addr) == Ok((View(), earliestChanged))
    {
      var when := heap[addr].expiration;
      earliestChanged := false;
      if timers == {} {
        earliestChanged := true;
      } else {
        var e := First();
        if when < e.at {
          earliestChanged := true;
        }
      }
      timers := timers + {Entry(when, addr)};
      active := active + {Id(addr, heap[addr].sn)};
    }

    method AddTimerInLoop(addr: Addr, clock: int)
      requires Valid() && addr in pending
      modifies this
      ensures Valid() && AddInLoop(old(View()), addr, clock) == Ok(View())
    {
      AddKeeps(View(), EAdd(addr, clock));
      pending := pending - {addr};
      var earliestChanged := InsertTimer(addr);
      if earliestChanged {
        alarm := Some(Armed(heap[addr].expiration, clock));
      }
    }

    method Cancel(id: Id)
      requires Valid()
      modifies this
      ensures Valid() && CancelInLoop(old(View()), id) == Ok(View())
    {
      hide Inv;
      CancelIs(View(), id);
      if id in active {
        timers := timers - {Entry(heap[id.addr].expiration, id.addr)};
        heap := heap - {id.addr};
        active := active - {id};
        dead := dead + {id.sn};
      } else if calling {
        ghost var inBatch := InBatch(View(), id);
        canceling := canceling + {id};
        dead := if inBatch then dead + {id.sn} else dead;
      }
    }

    /** Moves every timer up to the sentry out of the ordered index, in order. */
    method TakeExpired(when: int) returns (expired: seq<Entry>)
      modifies this`timers
      ensures Expired(old(View()), when, expired) && timers == old(timers) - SetOf(expired)
    {
      expired := [];
      ghost var all := timers;
      var sentry := Entry(when, UINTPTR_MAX);
      var more := true;
      while more && timers != {}
        invariant timers == all - SetOf(expired) && Sorted(expired)
        invariant forall e :: e in expired ==> e in all && Less(e, sentry)
        invariant forall e, f :: e in expired && f in timers ==> Less(e, f)
        invariant !more ==> forall f :: f in timers ==> !Less(f, sentry)
        decreases more, |timers|
      {
        var e := First();
        if Less(e, sentry) {
          assert forall i :: 0 <= i < |expired| ==> expired[i] in expired;
          expired := expired + [e];
          timers := timers - {e};
        } else {
          more := false;
        }
      }
    }

    /** Takes the timers of the batch out of the second index. */
    method Unlist(expired: seq<Entry>)
      requires forall e :: e in expired ==> e.addr in heap
      modifies this`active
      ensures active == old(active) - IdsOf(heap, expired)
    {
      ghost var all := active;
      var i := 0;
      while i < |expired|
        invariant 0 <= i <= |expired|
        invariant active == all - IdsOf(heap, expired[..i])
      {
        var e := expired[i];
        assert expired[..i + 1] == expired[..i] + [e];
        active := active - {Id(e.addr, heap[e.addr].sn)};
        i := i + 1;
      }
      assert expired[..i] == expired;
    }

    /** getExpired: both indexes lose the timers that are due. */
    method GetExpired(when: int) returns (expired: seq<Entry>)
      requires Valid()
      modifies this`timers, this`active
      ensures Expired(old(View()), when, expired)
      ensures timers == old(timers) - SetOf(expired) && active == old(active) - IdsOf(heap, expired)
    {
      ghost var q := View();
      expired := TakeExpired(when);
      assert forall e :: e in expired ==> e in q.timers;
      Unlist(expired);
    }

    /** handleRead up to the first callback. */
    method HandleReadBegin(when: int)
      requires Valid() && !calling && alarm.Some? && when > 0
      modifies this
      ensures Valid() && Expired(old(View()), when, batch) && Begin(old(View()), when, batch) == Ok(View())
    {
      hide Inv, Expired, SetOf, IdsOf, Begin;
      ghost var q := View();
      var expired := GetExpired(when);
      BeginFacts(q, when, expired);
      alarm, calling, canceling, batch, pos, now := None, true, {}, expired, 0, when;
      assert View() == Begin(q, when, expired).value;
    }

    /** The next callback of the batch runs. */
    method RunCallback()
      requires Valid() && calling && pos < |batch|
      modifies this`pos, this`ran
      ensures Valid() && RunNext(old(View())) == Ok(View())
    {
      RunKeepsInv(View(), ERun);
      ran := ran + [heap[batch[pos].addr].sn];
      pos := pos + 1;
    }

    /** The loop of reset: each timer of the batch is restarted or deleted. */
    method ResetLoop()
      requires Resetting(View())
      modifies this`heap, this`batch, this`timers, this`active
      ensures Resetting(View()) && batch == [] && ResetAll(old(View())) == Ok(View())
    {
      ghost var q := View();
      while batch != []
        invariant Resetting(View()) && ResetAll(View()) == ResetAll(q)
        decreases |batch|
      {
        hide Resetting;
        ResetOneKeeps(View());
        ResetFirst();
      }
    }

    /** The end of handleRead: reset restarts or deletes each timer of the batch and sets the alarm. */
    method HandleReadEnd(clock: int)
      requires Valid() && calling && pos == |batch|
      modifies this
      ensures Valid() && End(old(View()), clock) == Ok(View())
    {
      hide Inv, Resetting, ResetAll;
      ghost var q := View();
      EndFacts(q, clock);
      calling, pos := false, 0;
      ResetLoop();
      ghost var r := View();
      RearmIs(r, clock);
      if timers != {} {
        var e := First();
        OnlyFirst(r.timers, e);
        if e.at > 0 {
          alarm := Some(Armed(e.at, clock));
        }
      }
    }

    method ResetFirst()
      requires batch != [] && ResetOne(View()).Ok?
      modifies this`heap, this`batch, this`timers, this`active
      ensures ResetOne(old(View())) == Ok(View())
    {
      var addr := batch[0].addr;
      batch := batch[1..];
      if heap[addr].repeat && Id(addr, heap[addr].sn) !in canceling {
        heap := heap[addr := heap[addr].(expiration := now + heap[addr].delta)];
        var _ := InsertTimer(addr);
      } else {
        heap := heap - {addr};
      }
    }
  }

  lemma OnlyFirst(ts: set<Entry>, e: Entry)
    requires IsFirst(ts, e)
    ensures forall f :: IsFirst(ts, f) ==> f == e
  {
  }

  lemma CancelIs(q: Queue, id: Id)
    requires Inv(q)
    ensures |q.timers| == |q.active|
    ensures id in q.active ==> id.addr in q.heap && Entry(q.heap[id.addr].expiration, id.addr) in q.timers
    ensures CancelInLoop(q, id).Ok? && Inv(CancelInLoop(q, id).value)
  {
    CancelKeeps(q, ECancel(id));
  }

  lemma BeginFacts(q: Queue, now: int, es: seq<Entry>)
    requires Inv(q) && !q.calling && q.alarm.Some? && now > 0 && Expired(q, now, es)
    ensures forall e :: e in es ==> e.addr in q.heap
    ensures Begin(q, now, es).Ok? && Inv(Begin(q, now, es).value)
    ensures Begin(q, now, es).value ==
      q.(timers := q.timers - SetOf(es), active := q.active - IdsOf(q.heap, es),
         calling := true, canceling := {}, batch := es, pos := 0, now := now, alarm := None)
  {
    BeginOk(q, now, es);
    BeginKeeps(q, EBegin(now, es));
  }

  lemma EndFacts(q: Queue, clock: int)
    requires Inv(q) && q.calling && q.pos == |q.batch|
    ensures Resetting(q.(calling := false, pos := 0))
    ensures End(q, clock).Ok? && Inv(End(q, clock).value)
  {
    EndKeeps(q, EEnd(clock));
  }
}
