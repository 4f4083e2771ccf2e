/**
  Runs from boot in which children are lost: the situations of Reaping do arise.
 */
module Losses {
  import opened Lifecycle
  import opened Processes
  import opened Reaping
  import opened Scheduling
  import opened Wrappers

  // The first process has forked twice, its second child has exited, its first child runs.
  const FIRST := NewPcb(0, 1, 0)
  const CHILD := NewPcb(1, 2, 1)
  const SECOND := NewPcb(2, 3, 1)

  function TwoChildren(): Sched {
    Sched([FIRST.(sigchildState := 0, signallingChild := 3), CHILD, SECOND.(state := ZOMBIE), CLEARED],
          [true, true, true, false], [0], 1, 4)
  }

  // A fork takes the first free slot.
  lemma Forks(s: Sched)
    requires Settled(s) && Enabled(s, Fork) && FirstFree(s.used) < |s.used|
    ensures |s.used| == |s.pcbs| && 0 <= s.active < |s.pcbs| && Step(s, Fork) == Some(Spawned(s, ForkingParent(s)))
  {
    SlotCount(s);
    hide Inv;
  }

  lemma FirstFork()
    ensures Settled(Boot(4)) && Enabled(Boot(4), Fork)
    ensures Step(Boot(4), Fork)
         == Some(Sched([FIRST.(sigchildState := RUNNING), CHILD, CLEARED, CLEARED], [true, true, false, false], [0], 1, 3))
  {
    BootSettled(4);
    var s := Boot(4);
    assert s.pcbs == [FIRST, CLEARED, CLEARED, CLEARED];
    assert s.used == [true, false, false, false];
    assert FirstFree(s.used) == 1;
    Forks(s);
    hide Inv, Step;
    assert Spawned(s, ForkingParent(s)).pcbs == [FIRST.(sigchildState := RUNNING), CHILD, CLEARED, CLEARED];
    assert Spawned(s, ForkingParent(s)).used == [true, true, false, false];
    assert Spawned(s, ForkingParent(s)).queue == [0];
  }

  // A ready process in front of the queue is the next to run.
  lemma Yields(s: Sched)
    requires Settled(s) && Enabled(s, Yield) && s.queue != [] && !Stub(s, s.queue[0])
    ensures Step(s, Yield) == Some(Popped(PutBack(s)))
  {
    AtSwitchInv(s, Yield);
    assert FirstReady(PutBack(s).pcbs, PutBack(s).queue) == 0;
    hide Inv;
  }

  lemma Exits(s: Sched)
    requires Settled(s) && Enabled(s, Exit(0)) && s.queue != [] && !Stub(Left(s, 0), s.queue[0])
    ensures Left(s, 0).queue == s.queue && Step(s, Exit(0)) == Some(Popped(Left(s, 0)))
  {
    AtSwitchInv(s, Exit(0));
    LeaveShape(s, 0) by { SettledLive(s); }
    QueuedLive(s, 0);
    assert FirstReady(Left(s, 0).pcbs, Left(s, 0).queue) == 0;
    hide Inv;
  }

  lemma RunCons(s: Sched, c: Call, rest: seq<Call>, t: Sched)
    requires Settled(s) && Enabled(s, c) && Step(s, c).Some? && RunsTo(Step(s, c).value, rest, t)
    ensures RunsTo(s, [c] + rest, t)
  {
    hide Inv, Step;
    assert ([c] + rest)[1..] == rest;
  }

  lemma TwoChildrenRun()
    ensures RunsTo(Boot(4), [Fork] + ([Yield] + ([Fork] + ([Exit(0)] + []))), TwoChildren())
    ensures Settled(TwoChildren())
  {
    FirstFork();
    var s0 := Boot(4);
    var s1 := Step(s0, Fork).value;
    StepInv(s0, Fork);
    Yields(s1);
    var s2 := Step(s1, Yield).value;
    StepInv(s1, Yield);
    SecondFork(s2);
    var s3 := Step(s2, Fork).value;
    StepInv(s2, Fork);
    SecondExit(s3);
    StepInv(s3, Exit(0));
    hide Inv, Step, Boot, Enabled, TwoChildren, Popped, PutBack, Left;
    RunCons(s3, Exit(0), [], TwoChildren());
    RunCons(s2, Fork, [Exit(0)] + [], TwoChildren());
    RunCons(s1, Yield, [Fork] + ([Exit(0)] + []), TwoChildren());
    RunCons(s0, Fork, [Yield] + ([Fork] + ([Exit(0)] + [])), TwoChildren());
  }

  lemma SecondFork(s: Sched)
    requires s == Sched([FIRST.(sigchildState := RUNNING), CHILD, CLEARED, CLEARED], [true, true, false, false], [1], 0, 3)
    requires Settled(s)
    ensures Enabled(s, Fork)
    ensures Step(s, Fork)
         == Some(Sched([FIRST.(sigchildState := RUNNING), CHILD, SECOND, CLEARED], [true, true, true, false], [1, 0], 2, 4))
  {
    assert FirstFree(s.used) == 2;
    Forks(s);
    hide Inv, Step;
    assert Spawned(s, ForkingParent(s)).pcbs == [FIRST.(sigchildState := RUNNING), CHILD, SECOND, CLEARED];
    assert Spawned(s, ForkingParent(s)).used == [true, true, true, false];
    assert Spawned(s, ForkingParent(s)).queue == [1, 0];
  }

  lemma SecondExit(s: Sched)
    requires s == Sched([FIRST.(sigchildState := RUNNING), CHILD, SECOND, CLEARED], [true, true, true, false], [1, 0], 2, 4)
    requires Settled(s)
    ensures Enabled(s, Exit(0)) && Step(s, Exit(0)) == Some(TwoChildren())
  {
    var z := Put(s, 2, SECOND.(state := ZOMBIE));
    assert FirstPid(z.pcbs, 1) == 0;
    assert Popped(Left(s, 0)) == TwoChildren();
    Exits(s);
  }

  // The first process has news of its second child.
  lemma FirstHears()
    requires Settled(TwoChildren())
    ensures Hears(TwoChildren(), 0, 2) && Enabled(TwoChildren(), Exit(0)) && Enabled(TwoChildren(), Yield)
    ensures TwoChildren().pcbs[TwoChildren().active].ppid == TwoChildren().pcbs[0].pid
  {
    hide Inv;
    assert Told(TwoChildren(), 0, 2);
  }

  lemma FirstNotStub()
    requires Settled(TwoChildren())
    ensures TwoChildren().queue != [] && !Stub(Left(TwoChildren(), 0), TwoChildren().queue[0])
  {
    var s := TwoChildren();
    LeaveShape(s, 0) by { SettledLive(s); }
    hide Inv;
  }

  // Its first child exits as well, and the second is lost.
  lemma SecondExitHappens()
    ensures var s := TwoChildren();
            && Settled(s) && Enabled(s, Exit(0)) && Step(s, Exit(0)).Some?
            && Hears(s, 0, 2) && Lost(Step(s, Exit(0)).value, 2)
  {
    TwoChildrenRun();
    var s := TwoChildren();
    FirstHears();
    FirstNotStub();
    hide Inv, Step, TwoChildren, Left;
    Exits(s);
    SecondExitLoses(s, 0, 0, 2);
  }

  // After a yield of the first child the first process runs, and still has the news.
  function FirstAgain(): Sched {
    TwoChildren().(queue := [1], active := 0)
  }

  lemma YieldBack()
    ensures Settled(TwoChildren()) && Enabled(TwoChildren(), Yield)
    ensures Step(TwoChildren(), Yield) == Some(FirstAgain()) && Settled(FirstAgain())
  {
    TwoChildrenRun();
    FirstHears();
    var s := TwoChildren();
    Yields(s);
    StepInv(s, Yield);
    hide Inv, Step;
    assert Popped(PutBack(s)) == FirstAgain();
  }

  lemma StillHears()
    requires Settled(FirstAgain())
    ensures Hears(FirstAgain(), 0, 2) && Enabled(FirstAgain(), Fork) && FirstFree(FirstAgain().used) < |FirstAgain().used|
  {
    hide Inv;
    assert Told(FirstAgain(), 0, 2);
  }

  // It forks again before it waits, and the second child is lost.
  lemma ForkHappens()
    ensures var s := TwoChildren();
            && Settled(s) && Enabled(s, Yield) && Step(s, Yield).Some?
            && var t := Step(s, Yield).value;
            && Settled(t) && t.active == 0 && Hears(t, 0, 2) && Enabled(t, Fork) && Step(t, Fork).Some?
            && Lost(Step(t, Fork).value, 2)
  {
    YieldBack();
    StillHears();
    hide Inv, Step, TwoChildren, Hears, Lost;
    Forks(FirstAgain());
    ForkHeard(FirstAgain());
  }

  lemma ForkHeard(s: Sched)
    requires Settled(s) && Enabled(s, Fork) && Step(s, Fork).Some? && Hears(s, 0, 2) && s.active == 0
    ensures Lost(Step(s, Fork).value, 2)
  {
    hide Inv, Step;
    ForkLoses(s, 0, 2);
  }

  // A child that fails is lost at once.
  lemma FailureHappens()
    ensures var s := Step(Boot(4), Fork);
            && Settled(Boot(4)) && Enabled(Boot(4), Fork) && s.Some? && Settled(s.value)
            && s.value.active == 1 && Lost(Left(s.value, 1), 1)
  {
    FirstFork();
    StepInv(Boot(4), Fork);
    ExitLosesIff(Step(Boot(4), Fork).value, 1);
  }
}
