/** The event loop as the object it is.  Each method is one atomic section of a thread, so that the runs of
    module EventLoops are the interleavings of these calls. */
module EventLoopObjects {
  import opened EventLoops

  class EventLoop<F> {
    var phase: Phase
    var looping: bool
    var quit: bool
    var callingPendingFunctors: bool
    var pendingFunctors: seq<F>
    var functors: seq<F>
    var wakeupFd: nat
    ghost var writers: nat
    ghost var owes: bool
    ghost var queued: seq<F>
    ghost var ran: seq<F>

    ghost function View(): Loop<F>
      reads this
    {
      Loop(phase, looping, quit, callingPendingFunctors, pendingFunctors, functors, wakeupFd, writers, owes,
           queued, ran)
    }

    constructor ()
      ensures View() == NewLoop() && Inv(View()) && Recorded(View())
    {
      phase, looping, quit, callingPendingFunctors, pendingFunctors, functors := Idle, false, false, false, [], [];
      wakeupFd, writers, owes, queued, ran := 0, 0, false, [], [];
    }

    /** The guarded section of queueInLoop; `wake` says whether the caller has to go on to wakeup(). */
    method Enqueue(f: F, inLoopThread: bool) returns (wake: bool)
      requires Inv(View()) && Enabled(View(), if inLoopThread then EOwnPush(f) else EPush(f))
      modifies this
      ensures Inv(View()) && View() == Apply(old(View()), if inLoopThread then EOwnPush(f) else EPush(f))
      ensures wake <==> writers > old(writers) || owes
      ensures pendingFunctors == old(pendingFunctors) + [f]
    {
      StepInv(View(), if inLoopThread then EOwnPush(f) else EPush(f));
      pendingFunctors := pendingFunctors + [f];
      queued := queued + [f];
      wake := !inLoopThread || callingPendingFunctors;
      if inLoopThread {
        owes := callingPendingFunctors;
      } else {
        writers := writers + 1;
      }
    }

    method Wakeup(inLoopThread: bool)
      requires Inv(View()) && Enabled(View(), if inLoopThread then EOwnWrite else EWrite)
      modifies this
      ensures Inv(View()) && View() == Apply(old(View()), if inLoopThread then EOwnWrite else EWrite)
      ensures wakeupFd > 0
    {
      if wakeupFd < EVENTFD_MAX {
        wakeupFd := wakeupFd + 1;
      }
      if inLoopThread {
        owes := false;
      } else {
        writers := writers - 1;
      }
    }

    /** A whole queueInLoop that nobody interrupts: the loop will not sleep on this functor. */
    method QueueInLoop(f: F, inLoopThread: bool)
      requires Inv(View()) && Recorded(View()) && Enabled(View(), if inLoopThread then EOwnPush(f) else EPush(f))
      modifies this
      ensures Inv(View()) && pendingFunctors == old(pendingFunctors) + [f] && ran == old(ran)
      ensures (inLoopThread && phase.Idle?) || Recorded(View())
    {
      var wake := Enqueue(f, inLoopThread);
      if wake {
        Wakeup(inLoopThread);
      }
    }

    method Quit(inLoopThread: bool) returns (wake: bool)
      requires Inv(View()) && (inLoopThread ==> !owes && (phase.Idle? || phase.Handle? || phase.Run?))
      modifies this
      ensures Inv(View())
      ensures View() == (if !old(looping) && !old(quit) then old(View())
                         else Apply(old(View()), if inLoopThread then EOwnQuit else EQuit))
      ensures wake ==> quit && writers > 0
    {
      wake := false;
      if looping == false && quit == false {
        return;
      }
      quit := true;
      if !inLoopThread {
        wake := true;
        writers := writers + 1;
      }
    }

    method HandleRead()
      requires Inv(View()) && phase == Handle(true)
      modifies this
      ensures Inv(View()) && View() == Apply(old(View()), EReadWakeup)
    {
      wakeupFd := 0;
      phase := Handle(false);
    }

    /** The guarded section of doPendingFunctors. */
    method TakeFunctors()
      requires Inv(View()) && phase.Swap?
      modifies this
      ensures Inv(View()) && View() == Apply(old(View()), ESwap)
      ensures functors == old(pendingFunctors) && pendingFunctors == []
    {
      StepInv(View(), ESwap);
      functors, pendingFunctors := pendingFunctors, functors;
      phase := Run;
    }

    method RunFunctor() returns (f: F)
      requires Inv(View()) && Enabled(View(), ERun)
      modifies this
      ensures Inv(View()) && View() == Apply(old(View()), ERun)
      ensures ran == old(ran) + [f]
    {
      StepInv(View(), ERun);
      f := functors[0];
      functors := functors[1..];
      ran := ran + [f];
    }
  }
}
