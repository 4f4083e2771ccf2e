/**
  A run from boot in which the end of an image reaches the process that waits for it: the
  situations of ForkExec and ExecReturns do arise.
 */
module ExecRun {
  import opened ExecProtocol
  import opened ExecReturns
  import opened ForkExec
  import opened Integers
  import opened Lifecycle
  import opened Losses
  import opened Processes
  import opened Reaping
  import opened Scheduling
  import opened Wrappers

  // The first process has forked; its child calls exec, and is the stub of an image.
  const PARENT := FIRST.(sigchildState := RUNNING)
  const WAITER := PARENT.(waitState := WAITING_TO_LIVE, waitingFor := -1)
  const STUB := CHILD.(waitState := WAITING_TO_DIE, waitingFor := 3)
  const DUE := STUB.(sigchildState := 0, signallingChild := 3)
  const IMAGE := NewPcb(2, 3, 2)
  const CAST := Cast(0, 1, 2, 1, 2, 3)

  // wait(-1), as the library passes it on.
  const ANY: nat := 0xFFFF_FFFF

  function AfterFork(): Sched {
    Sched([PARENT, CHILD, CLEARED], [true, true, false], [0], 1, 3)
  }

  function AfterExec(): Sched {
    Sched([PARENT, STUB, IMAGE], [true, true, true], [0, 1], 2, 4)
  }

  function ParentUp(): Sched {
    Sched([PARENT, STUB, IMAGE], [true, true, true], [1, 2], 0, 4)
  }

  function ParentWaits(): Sched {
    Sched([WAITER, STUB, IMAGE], [true, true, true], [0, 1], 2, 4)
  }

  function ImageEnded(): Sched {
    Sched([WAITER, DUE, IMAGE.(state := ZOMBIE)], [true, true, true], [1], 0, 4)
  }

  function StubGone(): Sched {
    Sched([WAITER.(sigchildState := 0, signallingChild := 2), DUE.(state := ZOMBIE), IMAGE.(state := DEAD)],
          [true, true, false], [], 0, 4)
  }

  function Alone(): Sched {
    Sched([PARENT.(waitingFor := -1, sigchildState := DEAD, signallingChild := 2), CLEARED, IMAGE.(state := DEAD)],
          [true, false, false], [], 0, 4)
  }

  // --------------------------------------------------------- where a switch leads

  // The process in front goes on.
  lemma FrontGoes(s: Sched, c: Call, u: Sched)
    requires Settled(s) && Enabled(s, c) && HandsOn(s, c) && AtSwitch(s, c) == u && u.queue != [] && !Stub(u, u.queue[0])
    ensures Step(s, c) == Some(Popped(u))
  {
    AtSwitchInv(s, c);
    QueuedLive(u, 0);
    assert FirstReady(u.pcbs, u.queue) == 0;
    hide Inv, AtSwitch;
  }

  // A stub in front has its turn, and the process behind it goes on.
  lemma SecondGoes(s: Sched, c: Call, u: Sched)
    requires Settled(s) && Enabled(s, c) && HandsOn(s, c) && AtSwitch(s, c) == u
    requires |u.queue| >= 2 && Stub(u, u.queue[0]) && !Stub(u, u.queue[1])
    ensures Idle(u) && StubTurn(u).queue != [] && Step(s, c) == Some(Popped(StubTurn(u)))
  {
    AtSwitchInv(s, c);
    QueuedLive(u, 0);
    QueuedLive(u, 1);
    assert FirstReady(u.pcbs, u.queue) == 1;
    hide Inv, AtSwitch;
    DispatchSecond(u);
  }

  lemma DispatchSecond(s: Sched)
    requires Idle(s) && 1 == FirstReady(s.pcbs, s.queue) < |s.queue|
    ensures StubTurn(s).queue != [] && Dispatch(s) == Popped(StubTurn(s))
  {
    StubTurnReady(s);
    hide Inv, StubTurn, FirstReady;
    assert Dispatch(StubTurn(s)) == Popped(StubTurn(s));
    assert Dispatch(s) == Dispatch(StubTurn(s)) by { DispatchMoves(s); }
  }

  // ------------------------------------------------------------------ up to the end

  lemma ForkGoes()
    ensures Settled(Boot(3)) && Enabled(Boot(3), Fork) && Step(Boot(3), Fork) == Some(AfterFork()) && Settled(AfterFork())
  {
    BootSettled(3);
    var s := Boot(3);
    assert s.pcbs == [FIRST, CLEARED, CLEARED] && s.used == [true, false, false];
    assert FirstFree(s.used) == 1;
    Forks(s);
    StepInv(s, Fork);
    hide Inv, Step;
    assert Spawned(s, ForkingParent(s)).pcbs == [PARENT, CHILD, CLEARED];
    assert Spawned(s, ForkingParent(s)).used == [true, true, false];
    assert Spawned(s, ForkingParent(s)).queue == [0];
  }

  lemma ExecGoes()
    requires Settled(AfterFork())
    ensures Enabled(AfterFork(), Exec) && Step(AfterFork(), Exec) == Some(AfterExec()) && Settled(AfterExec())
  {
    var s := AfterFork();
    assert FirstFree(s.used) == 2;
    StepInv(s, Exec);
    hide Inv;
    assert Spawned(s, ExecStub(s)).pcbs == [PARENT, STUB, IMAGE];
    assert Spawned(s, ExecStub(s)).used == [true, true, true];
    assert Spawned(s, ExecStub(s)).queue == [0, 1];
  }

  lemma YieldGoes()
    requires Settled(AfterExec())
    ensures Enabled(AfterExec(), Yield) && Step(AfterExec(), Yield) == Some(ParentUp()) && Settled(ParentUp())
  {
    var s := AfterExec();
    Yields(s);
    StepInv(s, Yield);
    hide Inv, Step;
    assert Popped(PutBack(s)) == ParentUp();
  }

  lemma WaitGoes()
    requires Settled(ParentUp())
    ensures Enabled(ParentUp(), Wait(ANY)) && Step(ParentUp(), Wait(ANY)) == Some(ParentWaits()) && Settled(ParentWaits())
  {
    var s := ParentUp();
    var u := Sched([WAITER, STUB, IMAGE], [true, true, true], [1, 2, 0], NOBODY, 4);
    assert s.used[1] && s.pcbs[1].ppid == 1;
    assert HasChild(s, ANY);
    assert AtSwitch(s, Wait(ANY)) == u;
    SecondGoes(s, Wait(ANY), u);
    StepInv(s, Wait(ANY));
    hide Inv, Step;
    assert !Due(STUB);
    assert StubTurn(u) == PutBack(Popped(u));
    assert Popped(PutBack(Popped(u))) == ParentWaits();
  }

  lemma ExitGoes()
    requires Settled(ParentWaits())
    ensures Enabled(ParentWaits(), Exit(0)) && Step(ParentWaits(), Exit(0)) == Some(ImageEnded()) && Settled(ImageEnded())
  {
    var s := ParentWaits();
    var u := Sched([WAITER, DUE, IMAGE.(state := ZOMBIE)], [true, true, true], [0, 1], NOBODY, 4);
    assert AtSwitch(s, Exit(0)) == u by { ImageLeaves(); }
    FrontGoes(s, Exit(0), u);
    StepInv(s, Exit(0));
    hide Inv, Step, AtSwitch;
    assert Popped(u) == ImageEnded();
  }

  lemma ImageLeaves()
    ensures Left(ParentWaits(), 0) == Sched([WAITER, DUE, IMAGE.(state := ZOMBIE)], [true, true, true], [0, 1], NOBODY, 4)
  {
    var s := ParentWaits();
    var z := Put(s, 2, IMAGE.(state := ZOMBIE));
    assert z.pcbs == [WAITER, STUB, IMAGE.(state := ZOMBIE)];
    assert FirstPid(z.pcbs, 2) == 1;
    assert z.pcbs[1 := DUE] == [WAITER, DUE, IMAGE.(state := ZOMBIE)];
  }

  // --------------------------------------------------------------- the wait returns

  // The stub dies, and the process that waits looks again.
  lemma StubGoes()
    requires Settled(ImageEnded())
    ensures Enabled(ImageEnded(), Resume) && Step(ImageEnded(), Resume) == Some(StubGone()) && Settled(StubGone())
  {
    var s := ImageEnded();
    var u := s.(queue := [1, 0], active := NOBODY);
    assert PutBack(s) == u;
    SecondGoes(s, Resume, u);
    StepInv(s, Resume);
    PoppedInv(u);
    hide Inv, Step;
    StubDies(Popped(u));
    assert StubTurn(u) == Killed(Popped(u));
  }

  lemma StubDies(s: Sched)
    requires s == ImageEnded().(queue := [0], active := 1) && Inv(s) && Live(s, 1)
    ensures Killed(s).queue != [] && Popped(Killed(s)) == StubGone()
  {
    var z := Put(s, 1, DUE.(state := ZOMBIE));
    assert z.pcbs == [WAITER, DUE.(state := ZOMBIE), IMAGE.(state := ZOMBIE)];
    assert FirstPid(z.pcbs, 1) == 0;
    var u := Left(s, 0);
    assert u.pcbs == [WAITER.(sigchildState := 0, signallingChild := 2), DUE.(state := ZOMBIE), IMAGE.(state := ZOMBIE)];
    assert FirstPid(u.pcbs, 3) == 2;
    assert Reap(u, 2).pcbs == StubGone().pcbs && Reap(u, 2).used == StubGone().used;
  }

  lemma ParentGoes()
    requires Settled(StubGone())
    ensures Enabled(StubGone(), Resume) && !HandsOn(StubGone(), Resume) && Returned(StubGone(), Resume) == Some(2)
    ensures Step(StubGone(), Resume) == Some(Alone()) && Settled(Alone())
  {
    var s := StubGone();
    assert Satisfied(s.pcbs[0]);
    assert FirstPid(s.pcbs, 2) == 1;
    StepInv(s, Resume);
    hide Inv;
    assert Completed(s) == Alone();
  }

  // Alone, it gets the processor back at once.
  lemma AloneGoes()
    requires Settled(Alone())
    ensures Enabled(Alone(), Yield) && Step(Alone(), Yield) == Some(Alone())
  {
    var s := Alone();
    FrontGoes(s, Yield, PutBack(s));
    hide Inv, Step;
    assert Popped(PutBack(s)) == s;
  }

  // ------------------------------------------------------------------ the whole run

  const LATE: seq<Call> := [Yield] + ([Wait(ANY)] + ([Exit(0)] + []))
  const FIVE: seq<Call> := [Yield] + ([Yield] + ([Yield] + ([Yield] + ([Yield] + []))))
  const REST: seq<Call> := [Resume] + ([Resume] + FIVE)

  lemma Stages()
    ensures Imaged(AfterExec(), CAST) && Imaged(ParentUp(), CAST) && Imaged(ParentWaits(), CAST)
    ensures Ended(ImageEnded(), CAST) && Waits(ImageEnded(), CAST) && StubDead(StubGone(), CAST) && Finished(Alone(), CAST)
  {
    assert forall pid: nat {:trigger IsPid(3, pid)} :: IsPid(3, pid) <==> pid == 3;
  }

  lemma LateSteps()
    requires Settled(AfterExec()) && Enabled(AfterExec(), Yield) && Step(AfterExec(), Yield) == Some(ParentUp())
    requires Settled(ParentUp()) && Enabled(ParentUp(), Wait(ANY)) && Step(ParentUp(), Wait(ANY)) == Some(ParentWaits())
    requires Settled(ParentWaits()) && Enabled(ParentWaits(), Exit(0)) && Step(ParentWaits(), Exit(0)) == Some(ImageEnded())
    ensures Allowed(AfterExec(), CAST, Yield) && Allowed(ParentUp(), CAST, Wait(ANY)) && Allowed(ParentWaits(), CAST, Exit(0))
  {
    hide Inv, Step;
    assert OthersStay(AfterExec(), ParentUp(), CAST);
    assert OthersStay(ParentUp(), ParentWaits(), CAST);
    assert OthersStay(ParentWaits(), ImageEnded(), CAST);
  }

  lemma LateAllowed()
    requires Settled(AfterExec())
    ensures RunsTo(AfterExec(), LATE, ImageEnded()) && AllowedRun(AfterExec(), LATE, CAST) && Settled(ImageEnded())
  {
    YieldGoes();
    WaitGoes();
    ExitGoes();
    Stages();
    LateSteps();
    hide Settled, Step, Imaged, Allowed, Enabled, AfterExec, ParentUp, ParentWaits, ImageEnded, RunsTo, AllowedRun;
    RunEnds(ImageEnded());
    RunCons(ParentWaits(), Exit(0), [], ImageEnded());
    RunCons(ParentUp(), Wait(ANY), [Exit(0)] + [], ImageEnded());
    RunCons(AfterExec(), Yield, [Wait(ANY)] + ([Exit(0)] + []), ImageEnded());
    AllowedCons(ParentWaits(), Exit(0), []);
    AllowedCons(ParentUp(), Wait(ANY), [Exit(0)] + []);
    AllowedCons(AfterExec(), Yield, [Wait(ANY)] + ([Exit(0)] + []));
  }

  lemma RunEnds(s: Sched)
    ensures RunsTo(s, [], s) && AllowedRun(s, [], CAST) && AllowedUntil(s, [], CAST)
  {
  }

  lemma AllowedCons(s: Sched, c: Call, rest: seq<Call>)
    requires Settled(s) && Enabled(s, c) && Staged(s, CAST) && Allowed(s, CAST, c) && AllowedRun(Step(s, c).value, rest, CAST)
    ensures AllowedRun(s, [c] + rest, CAST)
  {
    hide Inv, Step, Allowed, Staged;
    assert ([c] + rest)[1..] == rest;
  }

  // The same for calls that are allowed until the wait has returned, and the turns they take.
  lemma UntilCons(s: Sched, c: Call, rest: seq<Call>)
    requires Settled(s) && Enabled(s, c) && Step(s, c).Some? && AllowedUntil(Step(s, c).value, rest, CAST)
    requires Staged(s, CAST) ==> Allowed(s, CAST, c)
    ensures AllowedUntil(s, [c] + rest, CAST)
    ensures Turns(s, [c] + rest) == (if HandsOn(s, c) then 1 else 0) + Turns(Step(s, c).value, rest)
  {
    hide Inv, Step, Allowed, Staged, HandsOn;
    assert ([c] + rest)[1..] == rest;
  }

  lemma FiveYields()
    requires Settled(Alone())
    ensures RunsTo(Alone(), FIVE, Alone()) && AllowedUntil(Alone(), FIVE, CAST) && Turns(Alone(), FIVE) == 5
  {
    AloneGoes();
    Stages();
    FinishedNotStaged(Alone(), CAST);
    hide Settled, Step, Finished, Staged, Enabled, Alone, RunsTo, AllowedUntil, Turns;
    var one := [Yield] + [];
    var two := [Yield] + one;
    var three := [Yield] + two;
    var four := [Yield] + three;
    RunEnds(Alone());
    NoTurns(Alone());
    YieldMore([], 0);
    YieldMore(one, 1);
    YieldMore(two, 2);
    YieldMore(three, 3);
    YieldMore(four, 4);
  }

  lemma NoTurns(s: Sched)
    ensures Turns(s, []) == 0
  {
  }

  lemma YieldMore(rest: seq<Call>, n: nat)
    requires Settled(Alone()) && Enabled(Alone(), Yield) && Step(Alone(), Yield) == Some(Alone()) && !Staged(Alone(), CAST)
    requires RunsTo(Alone(), rest, Alone()) && AllowedUntil(Alone(), rest, CAST) && Turns(Alone(), rest) == n
    ensures RunsTo(Alone(), [Yield] + rest, Alone()) && AllowedUntil(Alone(), [Yield] + rest, CAST)
    ensures Turns(Alone(), [Yield] + rest) == n + 1
  {
    hide Settled, Step, Staged, Enabled, Alone, RunsTo, AllowedUntil, Turns;
    RunCons(Alone(), Yield, rest, Alone());
    UntilCons(Alone(), Yield, rest);
  }

  lemma RestSteps()
    requires Settled(ImageEnded()) && Enabled(ImageEnded(), Resume) && Step(ImageEnded(), Resume) == Some(StubGone())
    requires Settled(StubGone()) && Enabled(StubGone(), Resume) && Step(StubGone(), Resume) == Some(Alone())
    ensures Allowed(ImageEnded(), CAST, Resume) && Allowed(StubGone(), CAST, Resume) && HandsOn(ImageEnded(), Resume)
  {
    hide Inv, Step;
    assert OthersStay(ImageEnded(), StubGone(), CAST);
    assert OthersStay(StubGone(), Alone(), CAST);
  }

  lemma RestGoes()
    requires Settled(ImageEnded())
    ensures RunsTo(ImageEnded(), REST, Alone()) && AllowedUntil(ImageEnded(), REST, CAST) && Turns(ImageEnded(), REST) == 6
  {
    StubGoes();
    ParentGoes();
    FiveYields();
    RestSteps();
    hide Settled, Step, Staged, Enabled, Alone, StubGone, ImageEnded, RunsTo, AllowedUntil, Turns, HandsOn, Allowed;
    RunCons(StubGone(), Resume, FIVE, Alone());
    RunCons(ImageEnded(), Resume, [Resume] + FIVE, Alone());
    UntilCons(StubGone(), Resume, FIVE);
    UntilCons(ImageEnded(), Resume, [Resume] + FIVE);
  }

  // From boot: fork, exec, wait(-1) while the image runs, its exit with status 0, and the
  // wait returns the id of the child that called exec.
  lemma ReturnHappens()
    ensures Settled(Boot(3)) && Enabled(Boot(3), Fork) && Step(Boot(3), Fork) == Some(AfterFork())
    ensures Settled(AfterFork()) && Enabled(AfterFork(), Exec) && Step(AfterFork(), Exec) == Some(AfterExec())
    ensures RunsTo(AfterExec(), LATE, ImageEnded()) && AllowedRun(AfterExec(), LATE, CAST)
    ensures Ended(ImageEnded(), CAST) && Waits(ImageEnded(), CAST)
    ensures RunsTo(ImageEnded(), REST, Alone()) && AllowedUntil(ImageEnded(), REST, CAST)
    ensures Turns(ImageEnded(), REST) >= 2 * |ImageEnded().pcbs|
    ensures Returns(ImageEnded(), REST, 0) != [] && Returns(ImageEnded(), REST, 0)[0] == 2 && Finished(Alone(), CAST)
  {
    ForkGoes();
    ExecGoes();
    LateAllowed();
    RestGoes();
    Stages();
    StartCast();
    hide Settled, Step, Enabled, RunsTo, AllowedRun, AllowedUntil, Turns, Returns, Ended, StubDead, Waits, Finished;
    ForkExecReturns(Boot(3), [], AfterFork(), LATE, ImageEnded(), REST, Alone());
  }

  lemma StartCast()
    ensures Boot(3).active == 0 && Boot(3).nextPid == 2 && Boot(3).pcbs[0].pid == 1 && FirstFree(Boot(3).used) == 1
    ensures FirstFree(AfterFork().used) == 2
    ensures RunsTo(AfterFork(), [], AfterFork()) && EarlyRun(AfterFork(), [], Cast(0, 1, 0, 1, 2, 0))
  {
    var used := Boot(3).used;
    assert used == [true, false, false];
  }
}
