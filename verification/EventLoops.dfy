/** The event loop's cross-thread queue and wakeup (src/network/EventLoop.cc).

    One loop thread and any number of other threads share the pending functors (under a mutex) and the
    eventfd.  Every access to shared state is a step of its own, so a thread can be stopped between
    queueing a functor, or setting quit, and writing the wakeup. */
module EventLoops {

  /** Where the loop thread is.  `Handle(woken)`: poll has returned, and `woken` says whether the wakeup
      channel is among the active channels and not yet read. */
  datatype Phase = Idle | Starting | Test | Poll | Handle(woken: bool) | Swap | Run

  /** `writers` counts other threads that still owe a wakeup; `owes` says that the loop thread does.
      `queued` and `ran` are history. */
  datatype Loop<F> = Loop(
    phase: Phase, looping: bool, quit: bool, calling: bool,
    pending: seq<F>, batch: seq<F>,
    eventfd: nat, writers: nat, owes: bool,
    queued: seq<F>, ran: seq<F>)

  /** The largest value an eventfd holds; a write beyond it fails, which wakeup() only logs. */
  const EVENTFD_MAX: nat := 0xFFFF_FFFF_FFFF_FFFE

  datatype Event<F> =
    | EPush(f: F)        // queueInLoop of another thread, up to the wakeup
    | EQuit              // quit() of another thread, up to the wakeup
    | EWrite             // such a thread writes the wakeup
    | EOwnPush(f: F)     // queueInLoop called on the loop's thread
    | EOwnWrite          // its wakeup, if it has to write one
    | EOwnQuit           // quit() called on the loop's thread
    | EStart             // loop() is entered
    | EClearQuit
    | ETest              // while (!quit_)
    | EPolled            // poll returns: an event, or the timeout
    | EReadWakeup        // handleRead of the wakeup channel
    | EHandled           // the channels are done; callingPendingFunctors_ is set
    | ESwap
    | ERun               // the next functor of the batch is run
    | EDone

  function Wakeup(fd: nat): (r: nat)
    ensures r > 0
  {
    if fd < EVENTFD_MAX then fd + 1 else fd
  }

  /** Whether quit() does anything. */
  predicate Quits<F>(s: Loop<F>) {
    s.looping || s.quit
  }

  predicate Enabled<F>(s: Loop<F>, e: Event<F>) {
    match e
    case EPush(_) => true
    case EQuit => Quits(s)
    case EWrite => s.writers > 0
    case EOwnPush(_) => !s.owes && (s.phase.Idle? || s.phase.Handle? || s.phase.Run?)
    case EOwnWrite => s.owes
    case EOwnQuit => !s.owes && Quits(s) && (s.phase.Idle? || s.phase.Handle? || s.phase.Run?)
    case EStart => s.phase.Idle?
    case EClearQuit => s.phase.Starting?
    case ETest => s.phase.Test?
    case EPolled => s.phase.Poll?
    case EReadWakeup => s.phase == Handle(true)
    case EHandled => s.phase == Handle(false)
    case ESwap => s.phase.Swap?
    case ERun => s.phase.Run? && !s.owes && s.batch != []
    case EDone => s.phase.Run? && !s.owes && s.batch == []
  }

  function Apply<F>(s: Loop<F>, e: Event<F>): Loop<F>
    requires Enabled(s, e)
  {
    match e
    case EPush(f) => s.(pending := s.pending + [f], queued := s.queued + [f], writers := s.writers + 1)
    case EQuit => s.(quit := true, writers := s.writers + 1)
    case EWrite => s.(writers := s.writers - 1, eventfd := Wakeup(s.eventfd))
    case EOwnPush(f) => s.(pending := s.pending + [f], queued := s.queued + [f], owes := s.calling)
    case EOwnWrite => s.(owes := false, eventfd := Wakeup(s.eventfd))
    case EOwnQuit => s.(quit := true)
    case EStart => s.(phase := Starting, looping := true)
    case EClearQuit => s.(phase := Test, quit := false)
    case ETest => if s.quit then s.(phase := Idle, looping := false) else s.(phase := Poll)
    case EPolled => s.(phase := Handle(s.eventfd > 0))
    case EReadWakeup => s.(phase := Handle(false), eventfd := 0)
    case EHandled => s.(phase := Swap, calling := true)
    case ESwap => s.(phase := Run, batch := s.pending, pending := [])
    case ERun => s.(batch := s.batch[1..], ran := s.ran + [s.batch[0]])
    case EDone => s.(phase := Test, calling := false)
  }

  function NewLoop<F>(): Loop<F> {
    Loop(Idle, false, false, false, [], [], 0, 0, false, [], [])
  }

  // ---------------------------------------------------------------- invariant

  /** A wakeup is recorded, or some thread is about to record one. */
  predicate Woken<F>(s: Loop<F>) {
    s.eventfd > 0 || s.writers > 0 || s.owes
  }

  /** The functors queued so far have run, are about to run, or are queued: in this order. */
  ghost predicate Ordered<F>(s: Loop<F>) {
    s.queued == s.ran + s.batch + s.pending
  }

  ghost predicate Flags<F>(s: Loop<F>) {
    && (s.calling <==> s.phase.Swap? || s.phase.Run?)
    && (s.owes ==> s.phase.Run?)
    && (s.batch != [] ==> s.phase.Run?)
    && (s.looping <==> !s.phase.Idle?)
  }

  /** Queued work is only ever without a wakeup where the loop is certain to look before it blocks. */
  ghost predicate Recorded<F>(s: Loop<F>) {
    && (s.pending != [] && !s.phase.Handle? && !s.phase.Swap? ==> Woken(s))
    && (s.quit && s.phase.Poll? ==> Woken(s))
  }

  ghost predicate Inv<F>(s: Loop<F>) {
    Ordered(s) && Flags(s)
  }

  lemma NewInv<F>(s: Loop<F>)
    requires s == NewLoop()
    ensures Inv(s) && Recorded(s)
  {
  }

  lemma StepInv<F>(s: Loop<F>, e: Event<F>)
    requires Inv(s) && Enabled(s, e)
    ensures Inv(Apply(s, e))
  {
    if e.EPush? || e.EOwnPush? {
      assert (s.ran + s.batch + s.pending) + [e.f] == s.ran + s.batch + (s.pending + [e.f]);
    } else if e.ERun? {
      assert s.batch == [s.batch[0]] + s.batch[1..];
      assert s.ran + s.batch + s.pending == (s.ran + [s.batch[0]]) + s.batch[1..] + s.pending;
    } else if e.ESwap? {
      assert s.batch == [];
      assert s.ran + s.batch + s.pending == s.ran + s.pending + [];
    }
  }

  /** The one step that can leave work unrecorded: the loop's thread queues it outside loop(). */
  predicate Silent<F>(s: Loop<F>, e: Event<F>) {
    e.EOwnPush? && s.phase.Idle?
  }

  lemma StepRecorded<F>(s: Loop<F>, e: Event<F>)
    requires Inv(s) && Recorded(s) && Enabled(s, e) && !Silent(s, e)
    ensures Recorded(Apply(s, e))
  {
  }

  // ---------------------------------------------------------------- runs

  predicate Enables<F>(s: Loop<F>, es: seq<Event<F>>)
    decreases |es|
  {
    es == [] || (Enabled(s, es[0]) && Enables(Apply(s, es[0]), es[1..]))
  }

  function After<F>(s: Loop<F>, es: seq<Event<F>>): Loop<F>
    requires Enables(s, es)
    decreases |es|
  {
    if es == [] then s else After(Apply(s, es[0]), es[1..])
  }

  /** No step of the run queues work on the loop's own thread outside loop(). */
  predicate Spoken<F>(s: Loop<F>, es: seq<Event<F>>)
    requires Enables(s, es)
    decreases |es|
  {
    es == [] || (!Silent(s, es[0]) && Spoken(Apply(s, es[0]), es[1..]))
  }

  /** Under every interleaving the functors run in queue order, each once. */
  lemma {:induction false} EachRunsOnceInOrder<F>(s: Loop<F>, es: seq<Event<F>>)
    requires Inv(s) && Enables(s, es)
    ensures Inv(After(s, es))
    ensures After(s, es).ran <= After(s, es).queued
    decreases |es|
  {
    if es != [] {
      StepInv(s, es[0]);
      EachRunsOnceInOrder(Apply(s, es[0]), es[1..]);
    }
  }

  lemma {:induction false} RunRecorded<F>(s: Loop<F>, es: seq<Event<F>>)
    requires Inv(s) && Recorded(s) && Enables(s, es) && Spoken(s, es)
    ensures Inv(After(s, es)) && Recorded(After(s, es))
    decreases |es|
  {
    if es != [] {
      StepInv(s, es[0]);
      StepRecorded(s, es[0]);
      RunRecorded(Apply(s, es[0]), es[1..]);
    }
  }

  /** The loop sleeps in poll, with nothing to end its sleep but the timeout or another descriptor. */
  predicate Asleep<F>(s: Loop<F>) {
    s.phase.Poll? && !Woken(s)
  }

  /** The loop sleeps although there is something for it to do. */
  predicate Missed<F>(s: Loop<F>) {
    Asleep(s) && (s.pending != [] || s.quit)
  }

  lemma NeverMissed<F>(s: Loop<F>, es: seq<Event<F>>)
    requires Inv(s) && Recorded(s) && Enables(s, es) && Spoken(s, es)
    ensures !Missed(After(s, es))
  {
    RunRecorded(s, es);
  }

  /** A sleeping loop has run everything that was ever queued. */
  lemma AsleepMeansAllRan<F>(es: seq<Event<F>>)
    requires Enables(NewLoop<F>(), es) && Spoken(NewLoop<F>(), es)
    ensures var s := After(NewLoop<F>(), es); Asleep(s) ==> s.ran == s.queued && !s.quit
  {
    NewInv(NewLoop<F>());
    RunRecorded(NewLoop<F>(), es);
  }

  /** No run from here misses anything. */
  ghost predicate Attentive<F(!new)>(s: Loop<F>) {
    forall es: seq<Event<F>> :: Enables(s, es) && Spoken(s, es) ==> !Missed(After(s, es))
  }

  /** Exactly when loop() may be entered: nothing is queued, or a wakeup for it is on record.  What the
      loop's own thread queued beforehand has none. */
  lemma EntrySafeIff<F(!new)>(s: Loop<F>)
    requires Inv(s) && s.phase.Idle?
    ensures Attentive(s) <==> s.pending == [] || s.eventfd > 0 || s.writers > 0
  {
    if s.pending == [] || s.eventfd > 0 || s.writers > 0 {
      forall es: seq<Event<F>> | Enables(s, es) && Spoken(s, es)
        ensures !Missed(After(s, es))
      {
        NeverMissed(s, es);
      }
    } else {
      var es := SilentEntry(s);
      assert Enables(s, es) && Spoken(s, es) && Missed(After(s, es));
    }
  }

  /** Entering loop() with work that nobody announced puts the loop to sleep on it. */
  lemma SilentEntry<F>(s: Loop<F>) returns (es: seq<Event<F>>)
    requires s.phase.Idle? && s.pending != [] && !Woken(s)
    ensures Enables(s, es) && Spoken(s, es) && Missed(After(s, es))
  {
    var s1 := Apply(s, EStart);
    var s2 := Apply(s1, EClearQuit);
    Prefix(s2, ETest, []);
    Prefix(s1, EClearQuit, [ETest]);
    Prefix(s, EStart, [EClearQuit] + [ETest]);
    es := [EStart] + ([EClearQuit] + [ETest]);
  }

  lemma Prefix<F>(s: Loop<F>, e: Event<F>, es: seq<Event<F>>)
    requires Enabled(s, e) && Enables(Apply(s, e), es)
    ensures Enables(s, [e] + es) && After(s, [e] + es) == After(Apply(s, e), es)
    ensures !Silent(s, e) && Spoken(Apply(s, e), es) ==> Spoken(s, [e] + es)
  {
    assert ([e] + es)[1..] == es;
  }

  /** A quit() that falls between the two assignments at the head of loop() is forgotten. */
  lemma QuitForgotten() returns (es: seq<Event<int>>)
    ensures Enables(NewLoop<int>(), es) && EQuit in es && Asleep(After(NewLoop<int>(), es))
  {
    var s1: Loop<int> := Apply(NewLoop(), EStart);
    var s2 := Apply(s1, EQuit);
    var s3 := Apply(s2, EWrite);
    var s4 := Apply(s3, EClearQuit);
    var tail := AsleepAgain(s4);
    hide Apply, Asleep, After, Enables;
    Prefix(s3, EClearQuit, tail);
    Prefix(s2, EWrite, [EClearQuit] + tail);
    Prefix(s1, EQuit, [EWrite] + ([EClearQuit] + tail));
    es := [EQuit] + ([EWrite] + ([EClearQuit] + tail));
    Prefix(NewLoop(), EStart, es);
    assert EQuit in es;
    es := [EStart] + es;
  }

  /** One iteration that finds nothing but the wakeup. */
  lemma AsleepAgain<F>(s: Loop<F>) returns (es: seq<Event<F>>)
    requires s.phase.Test? && !s.quit && s.pending == [] && s.eventfd > 0 && s.writers == 0 && !s.owes
    ensures Enables(s, es) && Asleep(After(s, es))
  {
    var s1 := Apply(s, ETest);
    var s2 := Apply(s1, EPolled);
    var s3 := Apply(s2, EReadWakeup);
    var s4 := Apply(s3, EHandled);
    var s5 := Apply(s4, ESwap);
    var s6 := Apply(s5, EDone);
    hide Apply;
    es := [ETest];
    Prefix(s6, ETest, []);
    Prefix(s5, EDone, es);
    Prefix(s4, ESwap, [EDone] + es);
    Prefix(s3, EHandled, [ESwap] + ([EDone] + es));
    Prefix(s2, EReadWakeup, [EHandled] + ([ESwap] + ([EDone] + es)));
    Prefix(s1, EPolled, [EReadWakeup] + ([EHandled] + ([ESwap] + ([EDone] + es))));
    es := [EPolled] + ([EReadWakeup] + ([EHandled] + ([ESwap] + ([EDone] + es))));
    Prefix(s, ETest, es);
    es := [ETest] + es;
  }

  // ---------------------------------------------------------------- when a quit is kept

  /** Until loop() is entered again, quit_ stays set. */
  ghost predicate Kept<F(!new)>(s: Loop<F>) {
    forall es: seq<Event<F>> :: Enables(s, es) && EStart !in es ==> After(s, es).quit
  }

  lemma {:induction false} QuitStays<F>(s: Loop<F>, es: seq<Event<F>>)
    requires s.quit && !s.phase.Starting? && Enables(s, es) && EStart !in es
    ensures After(s, es).quit && !After(s, es).phase.Starting?
    decreases |es|
  {
    if es != [] {
      assert es[0] in es && forall e :: e in es[1..] ==> e in es;
      QuitStays(Apply(s, es[0]), es[1..]);
    }
  }

  /** A quit() of another thread is kept if and only if it does not fall between the two assignments at
      the head of loop(). */
  lemma QuitKeptIff<F(!new)>(s: Loop<F>)
    requires Enabled(s, EQuit)
    ensures Kept(Apply(s, EQuit)) <==> !s.phase.Starting?
  {
    var t := Apply(s, EQuit);
    if s.phase.Starting? {
      var es: seq<Event<F>> := [EClearQuit];
      assert es[1..] == [] && Enables(Apply(t, EClearQuit), []);
      assert Enables(t, es) && EStart !in es && !After(t, es).quit;
    } else {
      forall es: seq<Event<F>> | Enables(t, es) && EStart !in es
        ensures After(t, es).quit
      {
        QuitStays(t, es);
      }
    }
  }

  /** A quit() on the loop's own thread is always kept: that thread is not between the two assignments. */
  lemma OwnQuitKept<F(!new)>(s: Loop<F>)
    requires Enabled(s, EOwnQuit)
    ensures Kept(Apply(s, EOwnQuit))
  {
    var t := Apply(s, EOwnQuit);
    forall es: seq<Event<F>> | Enables(t, es) && EStart !in es
      ensures After(t, es).quit
    {
      QuitStays(t, es);
    }
  }

  /** Whatever happens first, short of entering loop() again, the next test of quit_ leaves the loop. */
  ghost predicate EndsAtTest<F(!new)>(s: Loop<F>) {
    forall es: seq<Event<F>> :: Enables(s, es) && EStart !in es && Enabled(After(s, es), ETest) ==>
      Apply(After(s, es), ETest).phase.Idle?
  }

  /** A quit() of another thread ends the loop at its next test under the same condition. */
  lemma QuitEndsLoopIff<F(!new)>(s: Loop<F>)
    requires Enabled(s, EQuit)
    ensures EndsAtTest(Apply(s, EQuit)) <==> !s.phase.Starting?
  {
    var t := Apply(s, EQuit);
    if s.phase.Starting? {
      var es: seq<Event<F>> := [EClearQuit];
      assert es[1..] == [] && Enables(Apply(t, EClearQuit), []);
      assert Enables(t, es) && EStart !in es && Apply(After(t, es), ETest).phase.Poll?;
    } else {
      QuitKeptIff(s);
    }
  }

  // ---------------------------------------------------------------- within one iteration

  /** However many functors are queued, the first n have been taken over by the loop. */
  ghost predicate Taken<F>(s: Loop<F>, n: nat) {
    |s.ran| + |s.batch| >= n
  }

  lemma {:induction false} TakenStays<F>(s: Loop<F>, es: seq<Event<F>>, n: nat)
    requires Inv(s) && Taken(s, n) && Enables(s, es)
    ensures Taken(After(s, es), n)
    decreases |es|
  {
    if es != [] {
      StepInv(s, es[0]);
      TakenStays(Apply(s, es[0]), es[1..], n);
    }
  }

  lemma {:induction false} QueuedGrows<F>(s: Loop<F>, es: seq<Event<F>>)
    requires Enables(s, es)
    ensures s.queued <= After(s, es).queued
    decreases |es|
  {
    if es != [] {
      QueuedGrows(Apply(s, es[0]), es[1..]);
    }
  }

  /** The functors that a run queues, from whatever thread. */
  function Queued<F>(es: seq<Event<F>>): seq<F> {
    if es == [] then []
    else (if es[0].EPush? || es[0].EOwnPush? then [es[0].f] else []) + Queued(es[1..])
  }

  /** Every functor queued in a run is on record, in the order of the calls, and nothing else is. */
  lemma {:induction false} AllQueued<F>(s: Loop<F>, es: seq<Event<F>>)
    requires Enables(s, es)
    ensures After(s, es).queued == s.queued + Queued(es)
    decreases |es|
  {
    if es != [] {
      AllQueued(Apply(s, es[0]), es[1..]);
      assert s.queued + Queued(es) ==
        (s.queued + if es[0].EPush? || es[0].EOwnPush? then [es[0].f] else []) + Queued(es[1..]);
    }
  }

  /** A loop that sleeps has run exactly the functors queued in the run, in order. */
  lemma AsleepHasRunThem<F>(es: seq<Event<F>>)
    requires Enables(NewLoop<F>(), es) && Spoken(NewLoop<F>(), es)
    ensures Asleep(After(NewLoop<F>(), es)) ==> After(NewLoop<F>(), es).ran == Queued(es)
  {
    AsleepMeansAllRan(es);
    AllQueued(NewLoop<F>(), es);
  }

  lemma {:induction false} AfterCat<F>(s: Loop<F>, a: seq<Event<F>>, b: seq<Event<F>>)
    requires Enables(s, a) && Enables(After(s, a), b)
    ensures Enables(s, a + b) && After(s, a + b) == After(After(s, a), b)
    decreases |a|
  {
    if a == [] {
      assert a + b == b;
    } else {
      assert (a + b)[0] == a[0] && (a + b)[1..] == a[1..] + b;
      AfterCat(Apply(s, a[0]), a[1..], b);
    }
  }

  /** Whatever is queued before a swap has run by the end of that iteration, whatever else happens. */
  lemma RunByEndOfIteration<F>(s: Loop<F>, before: seq<Event<F>>, between: seq<Event<F>>)
    requires Inv(s) && Enables(s, before) && After(s, before).phase.Swap?
    requires var t := Apply(After(s, before), ESwap);
      Enables(t, between) && Enabled(After(t, between), EDone)
    ensures var t := Apply(After(s, before), ESwap);
      s.queued <= After(t, between).ran
  {
    var r := After(s, before);
    EachRunsOnceInOrder(s, before);
    QueuedGrows(s, before);
    StepInv(r, ESwap);
    var t := Apply(r, ESwap);
    TakenStays(t, between, |r.queued|);
    EachRunsOnceInOrder(t, between);
    QueuedGrows(t, between);
    var u := After(t, between);
    assert u.ran <= u.queued && r.queued <= u.queued;
  }
}
