/**
  From fork to exec: the child that will call exec, and its unaware parent.
 */
module ForkExec {
  import opened ExecProtocol
  import opened ExecReturns
  import opened Integers
  import opened Lifecycle
  import opened Processes
  import opened Reaping
  import opened Scheduling

  // The child of fork runs, and has not called exec yet.
  ghost predicate Forked(s: Sched, c: Cast) {
    && Unaware(s, c)
    && Live(s, c.x) && Is(s, c.x, c.xp) && s.pcbs[c.x].ppid == c.pp && !Stub(s, c.x)
  }

  // The parent only waits or yields, and its other children stay; the child does not exit.
  ghost predicate AllowedEarly(s: Sched, c: Cast, call: Call)
    requires Settled(s) && Enabled(s, call)
  {
    && Step(s, call).Some? && ChildrenStay(s, Step(s, call).value, c.pp, c.xp)
    && (s.active == c.p ==>
          match call {
            case Yield => true
            case Resume => true
            case Wait(target) => ToInt(target) == -1 || IsPid(ToInt(target), c.xp)
            case _ => false
          })
    && (s.active == c.x ==> !call.Exit?)
  }

  // Fork gives its caller the id of the child, and forgets older news.
  lemma ForkStarts(s: Sched)
    requires Settled(s) && Enabled(s, Fork) && Step(s, Fork).Some?
    ensures var c := Cast(s.active, FirstFree(s.used), 0, s.pcbs[s.active].pid, s.nextPid, 0);
            Forked(Step(s, Fork).value, c)
  {
    SlotCount(s);
    SpawnedInv(s, ForkingParent(s));
    assert Live(s, s.active);
  }

  lemma ForkedKept(s: Sched, t: Sched, c: Cast)
    requires Fewer(s, t) && Same(s, t, c.p) && Akin(s, t, c.x) && Forked(s, c)
    ensures Forked(t, c)
  {
  }

  lemma ForkedDeath(s: Sched, c: Cast)
    requires Inv(s) && Live(s, s.active) && s.pcbs[s.active].sigchildState == 0 && Forked(s, c)
    requires s.active != c.p && s.active != c.x && s.pcbs[s.active].ppid != c.pp
    ensures Forked(Killed(s), c)
  {
    KilledFewer(s);
    hide Inv, Killed;
    KilledSame(s, c.p);
    KilledSame(s, c.x);
    ForkedKept(s, Killed(s), c);
  }

  lemma ForkedTurn(s: Sched, c: Cast)
    requires Idle(s) && s.queue != [] && Forked(s, c) && Stub(s, s.queue[0])
    requires ChildrenStay(s, StubTurn(s), c.pp, c.xp)
    ensures Forked(StubTurn(s), c)
  {
    hide Inv, Killed, StubTurn, Due, ChildrenStay;
    TurnParts(s);
    var a, k := Popped(s), s.queue[0];
    assert Forked(a, c) by { hide StubTurn; }
    if Due(a.pcbs[k]) {
      NotTheirs(s, c);
      ForkedDeath(a, c);
    } else {
      assert Forked(PutBack(a), c);
    }
  }

  // The stub in front dies, or goes back.
  lemma TurnParts(s: Sched)
    requires Idle(s) && s.queue != []
    ensures var a, k := Popped(s), s.queue[0];
            && Inv(a) && Live(a, k) && Live(s, k) && s.used[k] && a.active == k
            && (if Due(a.pcbs[k]) then a.pcbs[k].sigchildState == 0 && StubTurn(s) == Killed(a) && !Live(StubTurn(s), k)
                else StubTurn(s) == PutBack(a))
  {
    PoppedInv(s);
    StubTurnKeeps(s);
    hide Inv, Killed;
  }

  // A stub in front that dies is neither the parent nor the child, nor another child.
  lemma NotTheirs(s: Sched, c: Cast)
    requires Idle(s) && s.queue != [] && Forked(s, c) && Stub(s, s.queue[0]) && Live(s, s.queue[0])
    requires ChildrenStay(s, StubTurn(s), c.pp, c.xp) && !Live(StubTurn(s), s.queue[0])
    ensures var k := s.queue[0]; k != c.p && k != c.x && s.pcbs[k].ppid != c.pp
  {
    PidsDiffer(s, s.queue[0], c.x);
    hide Inv, StubTurn;
  }

  lemma StayMid(s: Sched, m: Sched, t: Sched, parent: nat, but: nat)
    requires ChildrenStay(s, t, parent, but) && forall i {:trigger Live(m, i)} :: Live(t, i) ==> Live(m, i)
    ensures ChildrenStay(s, m, parent, but)
  {
  }

  lemma StayRest(s: Sched, m: Sched, t: Sched, parent: nat, but: nat)
    requires ChildrenStay(s, t, parent, but)
    requires forall i {:trigger Live(m, i)} :: Live(m, i) ==> Live(s, i) && m.pcbs[i].pid == s.pcbs[i].pid && m.pcbs[i].ppid == s.pcbs[i].ppid
    ensures ChildrenStay(m, t, parent, but)
  {
  }

  lemma {:induction false} ForkedDispatch(s: Sched, c: Cast)
    requires Idle(s) && FirstReady(s.pcbs, s.queue) < |s.queue| && Forked(s, c)
    requires ChildrenStay(s, Dispatch(s), c.pp, c.xp)
    ensures Forked(Dispatch(s), c)
    decreases FirstReady(s.pcbs, s.queue)
  {
    if FirstReady(s.pcbs, s.queue) == 0 {
      assert Forked(Popped(s), c);
    } else {
      StubTurnReady(s);
      var m := StubTurn(s);
      DispatchOrder(m);
      StayMid(s, m, Dispatch(s), c.pp, c.xp);
      TurnIds(s);
      StayRest(s, m, Dispatch(s), c.pp, c.xp);
      ForkedTurn(s, c);
      hide Inv, Live, StubTurn, Forked, ChildrenStay;
      ForkedDispatch(m, c);
    }
  }

  lemma ForkedSwitch(s: Sched, c: Cast, call: Call)
    requires Settled(s) && Enabled(s, call) && Forked(s, c) && AllowedEarly(s, c, call) && HandsOn(s, call)
    ensures Forked(AtSwitch(s, call), c)
  {
    if call.Exit? {
      ForkedExit(s, c, call.status);
    } else {
      assert Live(s, s.active);
      hide Inv, Step, Dispatch, ChildrenStay;
      assert Is(s, c.p, c.pp) && Is(s, c.x, c.xp);
    }
  }

  lemma ForkedExit(s: Sched, c: Cast, status: nat)
    requires Settled(s) && Enabled(s, Exit(status)) && Forked(s, c) && AllowedEarly(s, c, Exit(status))
    ensures Forked(Left(s, ToInt(status)), c)
  {
    var call := Exit(status);
    AtSwitchInv(s, call);
    DispatchOrder(AtSwitch(s, call));
    LeftLive(s, ToInt(status));
    PidsDiffer(s, c.x, s.active);
    LeftDeparted(s, ToInt(status));
    LeaveShape(s, ToInt(status));
    assert Live(s, s.active) && s.used[s.active];
    hide Inv, Dispatch, Left, Leave;
    assert !Live(Step(s, call).value, s.active);
    assert s.pcbs[s.active].ppid != c.pp;
    ForkedKept(s, Left(s, ToInt(status)), c);
  }

  lemma ForkedSpawn(s: Sched, c: Cast, b: Pcb)
    requires Settled(s) && FirstFree(s.used) < |s.pcbs| && Forked(s, c) && s.active != c.p
    requires var a := s.pcbs[s.active];
             b == a.(waitState := b.waitState, waitingFor := b.waitingFor, sigchildState := b.sigchildState)
    requires s.active == c.x ==> b.waitState != WAITING_TO_DIE
    ensures Forked(Spawned(s, b), c)
  {
    assert Live(s, s.active);
    hide QueueOk, Covered, ReapOk, PidsOk;
  }

  lemma ForkedComplete(s: Sched, c: Cast)
    requires Settled(s) && s.pcbs[s.active].sigchildState == 0 && Forked(s, c)
    requires Reported(s) < |s.pcbs| && Reported(s) != s.active && |s.used| == |s.pcbs| && Told(s, s.active, Reported(s))
    ensures Forked(Completed(s), c)
  {
    assert s.active != c.p;
    hide Inv;
  }

  // The stub is there, and the image is its child.
  lemma ExecStarts(s: Sched, c: Cast)
    requires Settled(s) && Enabled(s, Exec) && Step(s, Exec).Some? && Forked(s, c) && s.active == c.x
    requires s.nextPid < 0x8000_0000
    ensures Imaged(Step(s, Exec).value, c.(y := FirstFree(s.used), yp := s.nextPid))
  {
    SlotCount(s);
    var t := Spawned(s, ExecStub(s));
    assert Live(s, s.active);
    assert !Due(t.pcbs[c.x]) by {
      if s.pcbs[c.x].sigchildState == 0 {
        SettledReported(s);
      }
    }
    hide Inv;
    assert StubOk(t, c.(y := FirstFree(s.used), yp := s.nextPid));
  }

  // Until the child calls exec, its parent's wait does not return.
  lemma ForkedStep(s: Sched, c: Cast, call: Call)
    requires Settled(s) && Enabled(s, call) && Forked(s, c) && AllowedEarly(s, c, call)
    requires !(s.active == c.x && call.Exec?)
    ensures Forked(Step(s, call).value, c)
    ensures s.active == c.p ==> Returned(s, call).None?
  {
    if HandsOn(s, call) {
      AtSwitchInv(s, call);
      ForkedSwitch(s, c, call);
      AtSwitchIds(s, call);
      var u, t := AtSwitch(s, call), Step(s, call).value;
      hide Inv, AtSwitch, Forked, Live;
      StayRest(s, u, t, c.pp, c.xp);
      ForkedDispatch(u, c);
    } else {
      ForkedStays(s, c, call);
    }
  }

  lemma ForkedStays(s: Sched, c: Cast, call: Call)
    requires Settled(s) && Enabled(s, call) && Forked(s, c) && AllowedEarly(s, c, call) && !HandsOn(s, call)
    requires !(s.active == c.x && call.Exec?)
    ensures Forked(Step(s, call).value, c)
    ensures s.active == c.p ==> Returned(s, call).None?
  {
    SlotCount(s);
    if s.active == c.p {
      ParentBlocked(s, c, call);
    }
    hide Inv, ChildrenStay;
    if call.Fork? {
      ForkedSpawn(s, c, ForkingParent(s));
    } else if call.Exec? {
      ForkedSpawn(s, c, ExecStub(s));
    } else if call.Resume? {
      SettledReported(s);
      ForkedComplete(s, c);
    }
  }

  lemma ParentBlocked(s: Sched, c: Cast, call: Call)
    requires Settled(s) && Enabled(s, call) && Forked(s, c) && AllowedEarly(s, c, call) && s.active == c.p
    ensures HandsOn(s, call) && Returned(s, call).None?
  {
    assert Is(s, c.x, c.xp) && s.pcbs[c.x].ppid == c.pp;
    hide Inv, Step, ChildrenStay;
    assert call.Wait? ==> HasChild(s, call.target);
  }

  // ------------------------------------------------------------------ whole runs

  ghost predicate EarlyRun(s: Sched, calls: seq<Call>, c: Cast)
    decreases |calls|
  {
    calls == []
    || (Settled(s) && Enabled(s, calls[0]) && AllowedEarly(s, c, calls[0]) && !(s.active == c.x && calls[0].Exec?)
        && EarlyRun(Step(s, calls[0]).value, calls[1..], c))
  }

  lemma {:induction false} EarlyHolds(s: Sched, calls: seq<Call>, t: Sched, c: Cast)
    requires Settled(s) && Forked(s, c) && RunsTo(s, calls, t) && EarlyRun(s, calls, c)
    ensures Settled(t) && Forked(t, c) && Returns(s, calls, c.p) == []
    decreases |calls|
  {
    if calls != [] {
      StepInv(s, calls[0]);
      ForkedStep(s, c, calls[0]);
      hide Inv, Forked, Step, AllowedEarly, Returned;
      EarlyHolds(Step(s, calls[0]).value, calls[1..], t, c);
    }
  }

  // A process forks; under any scheduling its child calls exec, the image ends with status
  // 0, and the forking process waits: its wait returns exactly once, with the id that fork
  // returned, after the image and the stub are gone.
  lemma ForkExecExitWait(s: Sched, early: seq<Call>, u: Sched, late: seq<Call>, t: Sched)
    requires Settled(s) && Enabled(s, Fork) && Step(s, Fork).Some?
    requires var c := Cast(s.active, FirstFree(s.used), 0, s.pcbs[s.active].pid, s.nextPid, 0);
             && RunsTo(Step(s, Fork).value, early, u) && EarlyRun(Step(s, Fork).value, early, c)
             && Settled(u) && u.active == c.x && Enabled(u, Exec) && Step(u, Exec).Some? && u.nextPid < 0x8000_0000
             && RunsTo(Step(u, Exec).value, late, t)
             && AllowedRun(Step(u, Exec).value, late, c.(y := FirstFree(u.used), yp := u.nextPid))
    ensures var c := Cast(s.active, FirstFree(s.used), FirstFree(u.used), s.pcbs[s.active].pid, s.nextPid, u.nextPid);
            && Returns(Step(s, Fork).value, early, s.active) == []
            && ((Staged(t, c) && Returns(Step(u, Exec).value, late, s.active) == [])
                || (Finished(t, c) && Returns(Step(u, Exec).value, late, s.active) == [s.nextPid]))
  {
    var c := Cast(s.active, FirstFree(s.used), 0, s.pcbs[s.active].pid, s.nextPid, 0);
    ForkStarts(s);
    StepInv(s, Fork);
    hide Inv, Forked, Step, AllowedEarly, Allowed, Returned, Staged, Finished, Spawned;
    EarlyHolds(Step(s, Fork).value, early, u, c);
    ExecStarts(u, c);
    StepInv(u, Exec);
    StagedOf(Step(u, Exec).value, c.(y := FirstFree(u.used), yp := u.nextPid));
    ProtocolHolds(Step(u, Exec).value, late, t, c.(y := FirstFree(u.used), yp := u.nextPid));
  }

  lemma StagedOf(s: Sched, c: Cast)
    requires Imaged(s, c)
    ensures Staged(s, c)
  {
  }

  // And it does return: from a state in which the image has ended and the forking process
  // waits, after so many turns under any scheduling.
  lemma ForkExecReturns(s: Sched, early: seq<Call>, u: Sched, late: seq<Call>, t: Sched, rest: seq<Call>, w: Sched)
    requires Settled(s) && Enabled(s, Fork) && Step(s, Fork).Some?
    requires var c := Cast(s.active, FirstFree(s.used), 0, s.pcbs[s.active].pid, s.nextPid, 0);
             && RunsTo(Step(s, Fork).value, early, u) && EarlyRun(Step(s, Fork).value, early, c)
             && Settled(u) && u.active == c.x && Enabled(u, Exec) && Step(u, Exec).Some? && u.nextPid < 0x8000_0000
             && RunsTo(Step(u, Exec).value, late, t)
             && AllowedRun(Step(u, Exec).value, late, c.(y := FirstFree(u.used), yp := u.nextPid))
    requires var c := Cast(s.active, FirstFree(s.used), FirstFree(u.used), s.pcbs[s.active].pid, s.nextPid, u.nextPid);
             && (Ended(t, c) || StubDead(t, c)) && Waits(t, c)
             && RunsTo(t, rest, w) && AllowedUntil(t, rest, c) && Turns(t, rest) >= 2 * |t.pcbs|
    ensures var c := Cast(s.active, FirstFree(s.used), FirstFree(u.used), s.pcbs[s.active].pid, s.nextPid, u.nextPid);
            && Returns(Step(s, Fork).value, early, s.active) == []
            && Returns(Step(u, Exec).value, late, s.active) == []
            && Returns(t, rest, s.active) != [] && Returns(t, rest, s.active)[0] == s.nextPid
            && Finished(w, c)
  {
    var c := Cast(s.active, FirstFree(s.used), FirstFree(u.used), s.pcbs[s.active].pid, s.nextPid, u.nextPid);
    assert Staged(t, c);
    ForkExecExitWait(s, early, u, late, t);
    FinishedNotStaged(t, c);
    hide Inv, Step, Staged, Finished, Turns, Ended, StubDead, Waits, AllowedUntil, AllowedRun, EarlyRun, Returns;
    StepInv(u, Exec);
    RunSettled(Step(u, Exec).value, late, t);
    ParentReturns(t, rest, w, c);
  }
}
