/**
  Exec does not replace its caller. It makes a second process for the image and leaves the
  caller behind as a stub that dies when the image has ended; only then does the caller's
  parent hear of the end, under the process id that fork gave it.
 */
module ExecProtocol {
  import opened Integers
  import opened Lifecycle
  import opened Processes
  import opened Reaping
  import opened Scheduling
  import opened Wrappers

  // The slots and process ids of the parent, of the caller of exec, and of its image.
  datatype Cast = Cast(p: int, x: int, y: int, pp: nat, xp: nat, yp: nat)

  ghost predicate Is(s: Sched, i: int, pid: nat) {
    0 <= i < |s.pcbs| && i < |s.used| && s.used[i] && s.pcbs[i].pid == pid
  }

  // The parent is there, and waits for nobody else.
  ghost predicate ParentOk(s: Sched, c: Cast) {
    && Live(s, c.p) && Is(s, c.p, c.pp) && !Stub(s, c.p) && 0 < c.xp
    && (s.pcbs[c.p].waitState == WAITING_TO_LIVE ==> s.pcbs[c.p].waitingFor == -1 || IsPid(s.pcbs[c.p].waitingFor, c.xp))
  }

  ghost predicate Unaware(s: Sched, c: Cast) {
    ParentOk(s, c) && s.pcbs[c.p].sigchildState != 0
  }

  ghost predicate StubOk(s: Sched, c: Cast) {
    && Live(s, c.x) && Is(s, c.x, c.xp) && s.pcbs[c.x].ppid == c.pp && Stub(s, c.x)
    && 0 < c.yp && (forall pid: nat {:trigger IsPid(s.pcbs[c.x].waitingFor, pid)} :: IsPid(s.pcbs[c.x].waitingFor, pid) <==> pid == c.yp)
  }

  // No process has this id any more.
  ghost predicate Gone(s: Sched, pid: nat) {
    pid < s.nextPid && forall i {:trigger s.used[i]} :: 0 <= i < |s.used| && i < |s.pcbs| && s.used[i] ==> s.pcbs[i].pid != pid
  }

  // The image runs.
  ghost predicate Imaged(s: Sched, c: Cast) {
    && Unaware(s, c) && StubOk(s, c) && !Due(s.pcbs[c.x])
    && Live(s, c.y) && Is(s, c.y, c.yp) && s.pcbs[c.y].ppid == c.xp
  }

  // The image has ended; its stub has not come up yet.
  ghost predicate Ended(s: Sched, c: Cast) {
    && Unaware(s, c) && StubOk(s, c) && Due(s.pcbs[c.x])
    && Is(s, c.y, c.yp) && s.pcbs[c.y].state == ZOMBIE && s.pcbs[c.y].ppid == c.xp
  }

  // The stub has died and freed the slot of its image.
  ghost predicate StubDead(s: Sched, c: Cast) {
    && ParentOk(s, c) && s.pcbs[c.p].sigchildState == 0 && s.pcbs[c.p].signallingChild == c.xp
    && Is(s, c.x, c.xp) && s.pcbs[c.x].state == ZOMBIE && s.pcbs[c.x].ppid == c.pp
    && Gone(s, c.yp)
  }

  // The parent has waited for it.
  ghost predicate Finished(s: Sched, c: Cast) {
    Gone(s, c.xp) && Gone(s, c.yp)
  }

  // No child of a process but one dies.
  ghost predicate ChildrenStay(s: Sched, t: Sched, parent: nat, but: nat) {
    forall i {:trigger Live(s, i)} {:trigger Live(t, i)} ::
      Live(s, i) && s.pcbs[i].pid != but && s.pcbs[i].ppid == parent ==> Live(t, i)
  }

  // No other child of the parent or of the stub dies.
  ghost predicate OthersStay(s: Sched, t: Sched, c: Cast) {
    ChildrenStay(s, t, c.pp, c.xp) && ChildrenStay(s, t, c.xp, c.yp)
  }

  // ------------------------------------------------------------ one turn of a stub

  // A slot and its entry, but for news of a child, are as before.
  ghost predicate Akin(s: Sched, t: Sched, i: int) {
    && 0 <= i < |s.pcbs| && i < |s.used| && i < |t.pcbs| && i < |t.used|
    && t.used[i] == s.used[i] && SameBut(s.pcbs[i], t.pcbs[i])
  }

  // Whose slot it is, and whether it lives, are as before.
  ghost predicate Kin(s: Sched, t: Sched, i: int) {
    && 0 <= i < |s.pcbs| && i < |s.used| && i < |t.pcbs| && i < |t.used|
    && t.used[i] == s.used[i] && t.pcbs[i].pid == s.pcbs[i].pid
    && t.pcbs[i].ppid == s.pcbs[i].ppid && t.pcbs[i].state == s.pcbs[i].state
  }

  ghost predicate Same(s: Sched, t: Sched, i: int) {
    Akin(s, t, i) && t.pcbs[i] == s.pcbs[i]
  }

  // No process appears under an old id.
  ghost predicate Fewer(s: Sched, t: Sched) {
    && t.nextPid >= s.nextPid && |t.used| == |s.used| == |s.pcbs| == |t.pcbs|
    && forall i {:trigger t.used[i]} :: 0 <= i < |t.used| && t.used[i] ==>
         t.pcbs[i].pid >= s.nextPid || (s.used[i] && t.pcbs[i].pid == s.pcbs[i].pid)
  }

  lemma StagesKept(s: Sched, t: Sched, c: Cast)
    requires Fewer(s, t) && Same(s, t, c.p)
    ensures Unaware(s, c) ==> Unaware(t, c)
    ensures Imaged(s, c) && Same(s, t, c.x) && Kin(s, t, c.y) ==> Imaged(t, c)
    ensures Ended(s, c) && Same(s, t, c.x) && Kin(s, t, c.y) ==> Ended(t, c)
    ensures StubDead(s, c) && Kin(s, t, c.x) ==> StubDead(t, c)
    ensures Finished(s, c) ==> Finished(t, c)
  {
  }

  lemma FinishedKept(s: Sched, t: Sched, c: Cast)
    requires Fewer(s, t)
    ensures Finished(s, c) ==> Finished(t, c)
  {
  }

  lemma KilledFewer(s: Sched)
    requires Inv(s) && Live(s, s.active) && s.pcbs[s.active].sigchildState == 0
    ensures Fewer(s, Killed(s))
  {
    KilledShape(s);
    KilledInv(s);
    hide PidsOk, QueueOk, Covered, ReapOk;
  }

  // A slot that is neither the dying process's, nor its child's, nor its parent's.
  lemma KilledSame(s: Sched, i: int)
    requires Inv(s) && Live(s, s.active) && s.pcbs[s.active].sigchildState == 0
    requires 0 <= i < |s.pcbs| && s.used[i] && i != s.active
    requires s.pcbs[i].state == RUNNING || s.pcbs[i].ppid != s.pcbs[s.active].pid
    ensures Akin(s, Killed(s), i)
    ensures s.pcbs[i].pid != s.pcbs[s.active].ppid ==> Same(s, Killed(s), i)
    ensures s.pcbs[i].pid == s.pcbs[s.active].ppid ==>
              Killed(s).pcbs[i].sigchildState == 0 && Killed(s).pcbs[i].signallingChild == s.pcbs[s.active].pid
  {
    KilledShape(s);
    hide PidsOk, QueueOk, Covered, ReapOk, Killed;
  }

  // A death that is none of theirs.
  lemma OtherDeath(s: Sched, c: Cast)
    requires Inv(s) && Live(s, s.active) && s.pcbs[s.active].sigchildState == 0
    requires s.active != c.p && s.pcbs[s.active].pid != c.xp && s.pcbs[s.active].pid != c.yp
    requires s.pcbs[s.active].ppid != c.pp && s.pcbs[s.active].ppid != c.xp
    requires Imaged(s, c) || Ended(s, c) || StubDead(s, c)
    ensures Imaged(s, c) ==> Imaged(Killed(s), c)
    ensures Ended(s, c) ==> Ended(Killed(s), c)
    ensures StubDead(s, c) ==> StubDead(Killed(s), c)
  {
    KilledFewer(s);
    hide Inv, Killed, Due;
    KilledSame(s, c.p);
    KilledSame(s, c.x);
    if !StubDead(s, c) {
      KilledSame(s, c.y);
    }
    StagesKept(s, Killed(s), c);
  }

  lemma PidsDiffer(s: Sched, i: int, j: int)
    requires Inv(s)
    ensures 0 <= i < |s.pcbs| && 0 <= j < |s.pcbs| && i != j && s.used[i] ==> s.pcbs[i].pid != s.pcbs[j].pid
  {
  }

  // The image itself had become a stub, and dies.
  lemma ImageDies(s: Sched, c: Cast)
    requires Inv(s) && Imaged(s, c) && s.active == c.y && s.pcbs[c.y].sigchildState == 0
    ensures Ended(Killed(s), c)
  {
    PidsDiffer(s, c.p, c.x);
    PidsDiffer(s, c.p, c.y);
    KilledShape(s);
    KilledInv(s);
    hide Inv, Killed, Departed;
    KilledSame(s, c.p);
    KilledSame(s, c.x);
    assert Unaware(Killed(s), c);
    assert StubOk(Killed(s), c);
  }

  // The stub comes up after its image has ended.
  lemma StubDies(s: Sched, c: Cast)
    requires Inv(s) && Ended(s, c) && s.active == c.x
    ensures StubDead(Killed(s), c)
  {
    PidsDiffer(s, c.p, c.x);
    KilledShape(s);
    KilledInv(s);
    StubDiesGone(s, c);
    hide Inv, Killed, Departed;
    KilledSame(s, c.p);
  }

  lemma StubDiesGone(s: Sched, c: Cast)
    requires Inv(s) && Ended(s, c) && s.active == c.x
    ensures Gone(Killed(s), c.yp)
  {
    KilledShape(s);
    KilledInv(s);
    KilledFewer(s);
    FirstPidIs(s.pcbs, c.y);
    forall i | 0 <= i < |s.pcbs| && s.used[i] && i != c.y ensures s.pcbs[i].pid != c.yp {
      PidsDiffer(s, c.y, i);
    }
    hide Inv, Killed, Departed;
  }

  lemma TurnStage(s: Sched, c: Cast)
    requires Idle(s) && s.queue != [] && OthersStay(s, StubTurn(s), c) && Stub(s, s.queue[0])
    ensures Imaged(s, c) ==> Imaged(StubTurn(s), c) || Ended(StubTurn(s), c)
    ensures Ended(s, c) ==> Ended(StubTurn(s), c) || StubDead(StubTurn(s), c)
    ensures StubDead(s, c) ==> StubDead(StubTurn(s), c)
  {
    PoppedInv(s);
    PoppedStage(s, c);
    StubTurnKeeps(s);
    var a := Popped(s);
    var k := s.queue[0];
    if !Due(a.pcbs[k]) {
      PutBackInv(a);
      BackStage(a, c);
    } else if Imaged(s, c) || Ended(s, c) || StubDead(s, c) {
      TheirDeath(s, a, c);
    }
  }

  lemma TheirDeath(s: Sched, a: Sched, c: Cast)
    requires Idle(s) && s.queue != [] && a == Popped(s) && Inv(a) && Live(a, a.active) && Due(a.pcbs[a.active])
    requires OthersStay(s, Killed(a), c) && Stub(s, a.active) && !Live(Killed(a), a.active) && Live(s, a.active)
    requires Imaged(a, c) || Ended(a, c) || StubDead(a, c)
    ensures Imaged(a, c) ==> Imaged(Killed(a), c) || Ended(Killed(a), c)
    ensures Ended(a, c) ==> Ended(Killed(a), c) || StubDead(Killed(a), c)
    ensures StubDead(a, c) ==> StubDead(Killed(a), c)
  {
    var k := a.active;
    if a.pcbs[k].pid == c.xp {
      PidsDiffer(a, c.x, k);
      StubDies(a, c);
    } else if !StubDead(a, c) && a.pcbs[k].pid == c.yp {
      PidsDiffer(a, c.y, k);
      ImageDies(a, c);
    } else {
      assert a.used[k];
      OtherDeath(a, c);
    }
  }

  lemma PoppedStage(s: Sched, c: Cast)
    requires s.queue != []
    ensures Imaged(s, c) <==> Imaged(Popped(s), c)
    ensures Ended(s, c) <==> Ended(Popped(s), c)
    ensures StubDead(s, c) <==> StubDead(Popped(s), c)
  {
  }

  lemma BackStage(s: Sched, c: Cast)
    ensures Imaged(s, c) ==> Imaged(PutBack(s), c)
    ensures Ended(s, c) ==> Ended(PutBack(s), c)
    ensures StubDead(s, c) ==> StubDead(PutBack(s), c)
  {
  }

  // -------------------------------------------------------------------- dispatch

  lemma OthersMid(s: Sched, m: Sched, t: Sched, c: Cast)
    requires OthersStay(s, t, c) && forall i {:trigger Live(m, i)} :: Live(t, i) ==> Live(m, i)
    ensures OthersStay(s, m, c)
  {
  }

  lemma OthersRest(s: Sched, m: Sched, t: Sched, c: Cast)
    requires OthersStay(s, t, c)
    requires forall i {:trigger Live(m, i)} :: Live(m, i) ==> Live(s, i) && m.pcbs[i].pid == s.pcbs[i].pid && m.pcbs[i].ppid == s.pcbs[i].ppid
    ensures OthersStay(m, t, c)
  {
  }

  lemma TurnIds(s: Sched)
    requires Idle(s) && s.queue != []
    ensures forall i {:trigger Live(StubTurn(s), i)} :: Live(StubTurn(s), i) ==>
              && Live(s, i) && StubTurn(s).pcbs[i].pid == s.pcbs[i].pid && StubTurn(s).pcbs[i].ppid == s.pcbs[i].ppid
  {
    PoppedInv(s);
    StubTurnKeeps(s);
    var p := Popped(s);
    if Due(p.pcbs[p.active]) {
      KilledIds(p);
    }
    hide Inv, Killed;
  }

  lemma KilledIds(s: Sched)
    requires Inv(s) && Live(s, s.active) && s.pcbs[s.active].sigchildState == 0
    ensures |Killed(s).pcbs| == |s.pcbs|
    ensures forall i :: 0 <= i < |s.pcbs| ==> Killed(s).pcbs[i].pid == s.pcbs[i].pid && Killed(s).pcbs[i].ppid == s.pcbs[i].ppid
  {
    KilledShape(s);
    LeaveShape(s, 0);
    hide Inv;
  }

  lemma {:induction false} DispatchStage(s: Sched, c: Cast)
    requires Idle(s) && FirstReady(s.pcbs, s.queue) < |s.queue| && OthersStay(s, Dispatch(s), c)
    ensures Imaged(s, c) ==> Imaged(Dispatch(s), c) || Ended(Dispatch(s), c) || StubDead(Dispatch(s), c)
    ensures Ended(s, c) ==> Ended(Dispatch(s), c) || StubDead(Dispatch(s), c)
    ensures StubDead(s, c) ==> StubDead(Dispatch(s), c)
    decreases FirstReady(s.pcbs, s.queue)
  {
    if FirstReady(s.pcbs, s.queue) == 0 {
      PoppedStage(s, c);
    } else {
      StubTurnReady(s);
      var m := StubTurn(s);
      DispatchOrder(m);
      OthersMid(s, m, Dispatch(s), c);
      TurnIds(s);
      OthersRest(s, m, Dispatch(s), c);
      TurnStage(s, c);
      hide Inv, Live, StubTurn, Imaged, Ended, StubDead, OthersStay;
      DispatchStage(m, c);
    }
  }

  // ----------------------------------------------------------------------- steps

  // The parent only waits, or yields; the image ends with status 0; no other child of the
  // parent or of the stub dies.
  ghost predicate Allowed(s: Sched, c: Cast, call: Call)
    requires Settled(s) && Enabled(s, call)
  {
    && Step(s, call).Some? && OthersStay(s, Step(s, call).value, c)
    && (s.active == c.p ==>
          match call {
            case Yield => true
            case Resume => true
            case Wait(target) => ToInt(target) == -1 || IsPid(ToInt(target), c.xp)
            case _ => false
          })
    && (s.pcbs[s.active].pid == c.yp && call.Exit? ==> ToInt(call.status) == 0)
  }

  ghost predicate Staged(s: Sched, c: Cast) {
    Imaged(s, c) || Ended(s, c) || StubDead(s, c)
  }

  // While the image runs or its stub is alive, no wait of the parent returns; after that,
  // the next one does, with the process id that fork gave.
  lemma ParentHears(s: Sched, c: Cast, call: Call)
    requires Settled(s) && Enabled(s, call) && Staged(s, c) && Allowed(s, c, call) && s.active == c.p
    ensures Returned(s, call) == if StubDead(s, c) && call.Resume? then Some(c.xp) else None
  {
    assert Is(s, c.x, c.xp) && s.pcbs[c.x].ppid == c.pp;
    hide Inv, Step, OthersStay;
    assert call.Wait? ==> HasChild(s, call.target);
  }

  lemma WaitingStage(s: Sched, c: Cast, target: nat)
    requires Settled(s) && Staged(s, c)
    requires s.active == c.p ==> ToInt(target) == -1 || IsPid(ToInt(target), c.xp)
    ensures Imaged(s, c) ==> Imaged(Waiting(s, target), c)
    ensures Ended(s, c) ==> Ended(Waiting(s, target), c)
    ensures StubDead(s, c) ==> StubDead(Waiting(s, target), c)
  {
    SlotCount(s);
    assert Live(s, s.active);
    hide Inv;
    var t := Waiting(s, target);
    if s.active == c.p {
    } else {
      StagesKept(s, t, c);
    }
  }

  lemma ImageExits(s: Sched, c: Cast)
    requires Settled(s) && Imaged(s, c) && s.active == c.y
    ensures Ended(Left(s, 0), c)
  {
    PidsDiffer(s, c.p, c.x);
    PidsDiffer(s, c.p, c.y);
    LeftDeparted(s, 0);
    assert s.pcbs[c.x].ppid < s.pcbs[c.x].pid;
    hide Inv;
    var t := Left(s, 0);
    assert Same(s, t, c.p);
    assert StubOk(t, c);
  }

  lemma OtherExits(s: Sched, c: Cast, status: int)
    requires Settled(s) && Staged(s, c) && s.active != c.p
    requires s.pcbs[s.active].pid != c.yp
    requires s.pcbs[s.active].ppid != c.pp && s.pcbs[s.active].ppid != c.xp
    ensures Imaged(s, c) ==> Imaged(Left(s, status), c)
    ensures Ended(s, c) ==> Ended(Left(s, status), c)
    ensures StubDead(s, c) ==> StubDead(Left(s, status), c)
  {
    LeftDeparted(s, status);
    LeaveShape(s, status);
    assert Live(s, s.active);
    hide QueueOk, Covered, ReapOk, PidsOk, Leave, Left;
    StagesKept(s, Left(s, status), c);
  }

  lemma SwitchStage(s: Sched, c: Cast, call: Call)
    requires Settled(s) && Enabled(s, call) && Staged(s, c) && Allowed(s, c, call) && HandsOn(s, call)
    ensures var u := AtSwitch(s, call);
            && (Imaged(s, c) ==> Imaged(u, c) || Ended(u, c))
            && (Ended(s, c) ==> Ended(u, c))
            && (StubDead(s, c) ==> StubDead(u, c))
  {
    match call
    case Exit(status) => ExitStage(s, c, status);
    case Wait(target) =>
      WaitingStage(s, c, target);
      BackStage(Waiting(s, target), c);
    case Yield => BackStage(s, c);
    case Resume => BackStage(s, c);
  }

  lemma ExitStage(s: Sched, c: Cast, status: nat)
    requires Settled(s) && Enabled(s, Exit(status)) && Staged(s, c) && Allowed(s, c, Exit(status))
    ensures var u := Left(s, ToInt(status));
            && (Imaged(s, c) ==> Imaged(u, c) || Ended(u, c))
            && (Ended(s, c) ==> Ended(u, c))
            && (StubDead(s, c) ==> StubDead(u, c))
  {
    assert Live(s, s.active) && Is(s, s.active, s.pcbs[s.active].pid);
    ExitGone(s, c, status);
    if s.pcbs[s.active].pid == c.yp {
      PidsDiffer(s, s.active, c.y);
      if Imaged(s, c) {
        ImageExits(s, c);
      }
    } else {
      OtherExits(s, c, ToInt(status));
    }
  }

  // Who exits is not a child that must stay.
  lemma ExitGone(s: Sched, c: Cast, status: nat)
    requires Settled(s) && Enabled(s, Exit(status)) && Staged(s, c) && Allowed(s, c, Exit(status))
    ensures s.active != c.p
    ensures s.pcbs[s.active].pid != c.yp ==> s.pcbs[s.active].ppid != c.pp && s.pcbs[s.active].ppid != c.xp
    ensures s.pcbs[s.active].pid == c.yp ==> Imaged(s, c)
  {
    var call := Exit(status);
    AtSwitchInv(s, call);
    DispatchOrder(AtSwitch(s, call));
    LeftLive(s, ToInt(status));
    PidsDiffer(s, c.x, s.active);
    PidsDiffer(s, c.y, s.active);
    assert Live(s, s.active) && s.used[s.active];
    hide Inv, Dispatch, Left;
    assert !Live(Step(s, call).value, s.active);
  }

  lemma SpawnStage(s: Sched, c: Cast, b: Pcb)
    requires Settled(s) && FirstFree(s.used) < |s.pcbs| && Staged(s, c) && s.active != c.p
    requires var a := s.pcbs[s.active];
             b == a.(waitState := b.waitState, waitingFor := b.waitingFor, sigchildState := b.sigchildState)
    ensures Imaged(s, c) ==> Imaged(Spawned(s, b), c)
    ensures Ended(s, c) ==> Ended(Spawned(s, b), c)
    ensures StubDead(s, c) ==> StubDead(Spawned(s, b), c)
    ensures Fewer(s, Spawned(s, b))
  {
    assert Live(s, s.active);
    hide QueueOk, Covered, ReapOk, PidsOk;
    var t := Spawned(s, b);
    assert Fewer(s, t);
    StagesKept(s, t, c);
  }

  lemma CompleteStage(s: Sched, c: Cast)
    requires Settled(s) && s.pcbs[s.active].sigchildState == 0 && Staged(s, c)
    requires Reported(s) < |s.pcbs| && Reported(s) != s.active && |s.used| == |s.pcbs| && Told(s, s.active, Reported(s))
    ensures s.active != c.p && Imaged(s, c) ==> Imaged(Completed(s), c)
    ensures s.active != c.p && Ended(s, c) ==> Ended(Completed(s), c)
    ensures s.active != c.p && StubDead(s, c) ==> StubDead(Completed(s), c)
    ensures s.active == c.p ==> StubDead(s, c) && Finished(Completed(s), c)
  {
    assert Live(s, s.active);
    var t, k := Completed(s), Reported(s);
    CompleteFewer(s);
    if s.active == c.p {
      PidsDiffer(s, k, c.x);
      forall i | 0 <= i < |s.pcbs| && i != k && s.used[i] ensures s.pcbs[i].pid != c.xp {
        PidsDiffer(s, i, c.x);
      }
      hide Inv;
    } else {
      PidsDiffer(s, c.p, s.active);
      PidsDiffer(s, c.x, s.active);
      PidsDiffer(s, c.y, s.active);
      hide Inv;
      StagesKept(s, t, c);
    }
  }

  lemma CompleteFewer(s: Sched)
    requires Settled(s) && s.pcbs[s.active].sigchildState == 0
    requires Reported(s) < |s.pcbs| && Reported(s) != s.active && |s.used| == |s.pcbs|
    ensures Fewer(s, Completed(s))
  {
    assert Live(s, s.active);
    hide QueueOk, Covered, ReapOk, PidsOk;
  }

  // The stages follow one another: the image runs, has ended, the stub has died, the parent
  // has waited. None is left out, and none comes back.
  lemma StepStage(s: Sched, c: Cast, call: Call)
    requires Settled(s) && Enabled(s, call) && Staged(s, c) && Allowed(s, c, call)
    ensures var t := Step(s, call).value;
            && (Imaged(s, c) ==> Staged(t, c))
            && (Ended(s, c) ==> Ended(t, c) || StubDead(t, c))
            && (StubDead(s, c) ==> StubDead(t, c) || (Finished(t, c) && s.active == c.p && Returned(s, call) == Some(c.xp)))
            && (s.active == c.p && Returned(s, call).Some? ==> Finished(t, c))
  {
    if HandsOn(s, call) {
      AtSwitchInv(s, call);
      SwitchStage(s, c, call);
      AtSwitchIds(s, call);
      var u, t := AtSwitch(s, call), Step(s, call).value;
      hide Inv, AtSwitch, Imaged, Ended, StubDead;
      OthersRest(s, u, t, c);
      DispatchStage(u, c);
    } else {
      if s.active == c.p {
        ParentHears(s, c, call);
      }
      StayStage(s, c, call);
    }
  }

  lemma StayStage(s: Sched, c: Cast, call: Call)
    requires Settled(s) && Enabled(s, call) && Staged(s, c) && Allowed(s, c, call) && !HandsOn(s, call)
    ensures var t := Step(s, call).value;
            && (Imaged(s, c) ==> Imaged(t, c))
            && (Ended(s, c) ==> Ended(t, c))
            && (StubDead(s, c) ==> StubDead(t, c) || (Finished(t, c) && s.active == c.p && Returned(s, call) == Some(c.xp)))
            && (s.active == c.p && Returned(s, call).Some? ==> Finished(t, c))
  {
    SlotCount(s);
    hide Inv, OthersStay;
    if call.Fork? {
      SpawnStage(s, c, ForkingParent(s));
    } else if call.Exec? {
      SpawnStage(s, c, ExecStub(s));
    } else if call.Resume? {
      SettledReported(s);
      CompleteStage(s, c);
    }
  }

  lemma AtSwitchIds(s: Sched, call: Call)
    requires Settled(s) && HandsOn(s, call)
    ensures forall i {:trigger Live(AtSwitch(s, call), i)} :: Live(AtSwitch(s, call), i) ==>
              && Live(s, i) && AtSwitch(s, call).pcbs[i].pid == s.pcbs[i].pid && AtSwitch(s, call).pcbs[i].ppid == s.pcbs[i].ppid
  {
    AtSwitchInv(s, call);
    if call.Exit? {
      LeaveShape(s, ToInt(call.status));
    }
    hide Inv;
  }

  // ------------------------------------------------------------------ whole runs

  // Calls that are allowed as long as the parent has not waited.
  ghost predicate AllowedRun(s: Sched, calls: seq<Call>, c: Cast)
    decreases |calls|
  {
    calls == []
    || (Staged(s, c) && Settled(s) && Enabled(s, calls[0]) && Allowed(s, c, calls[0])
        && AllowedRun(Step(s, calls[0]).value, calls[1..], c))
  }

  // Under any scheduling: the wait of the parent returns nothing while the image or its
  // stub is there, and then the process id of the caller of exec, once; and then neither
  // id belongs to a process any more.
  lemma {:induction false} ProtocolHolds(s: Sched, calls: seq<Call>, t: Sched, c: Cast)
    requires Settled(s) && Staged(s, c) && RunsTo(s, calls, t) && AllowedRun(s, calls, c)
    ensures (Staged(t, c) && Returns(s, calls, c.p) == []) || (Finished(t, c) && Returns(s, calls, c.p) == [c.xp])
    decreases |calls|
  {
    if calls != [] {
      var u := Step(s, calls[0]).value;
      StepInv(s, calls[0]);
      StepStage(s, c, calls[0]);
      if s.active == c.p {
        ParentHears(s, c, calls[0]);
      }
      FinishedNotStaged(u, c);
      hide Inv, Staged, Step, Finished, Allowed, Returned;
      if Staged(u, c) {
        ProtocolHolds(u, calls[1..], t, c);
      } else {
        assert calls[1..] == [];
      }
    }
  }

  lemma FinishedNotStaged(s: Sched, c: Cast)
    ensures Finished(s, c) ==> !Staged(s, c)
  {
  }
}
