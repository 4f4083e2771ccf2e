/**
  What `wait` waits for: exactly when it returns at once, and of the child that ends it, over
  whole runs.
 */
module Waits {
  import opened Integers
  import opened Lifecycle
  import opened Processes
  import opened Reaping
  import opened Scheduling
  import opened Wrappers

  // ------------------------------------------------------------ whether it blocks

  // A wait returns 0 at once, and changes nothing, exactly when no slot in use holds a child of
  // the caller that the argument, cut to an int, admits.  Otherwise the caller waits for it.
  lemma WaitBlocksIff(s: Sched, target: nat)
    requires Settled(s) && Enabled(s, Wait(target))
    ensures |s.used| == |s.pcbs| && 0 <= s.active < |s.pcbs|
    ensures var me, r := s.pcbs[s.active], Step(s, Wait(target));
            var admitted := exists i :: 0 <= i < |s.pcbs| && s.used[i] && s.pcbs[i].ppid == me.pid
                              && (ToInt(target) == -1 || s.pcbs[i].pid == ToWord(ToInt(target)));
            && (r == Some(s) <==> !admitted)
            && (Returned(s, Wait(target)) == if admitted then None else Some(0))
            && (admitted && r.Some? ==>
                  && |r.value.pcbs| == |s.pcbs| && r.value.pcbs[s.active].waitState == WAITING_TO_LIVE
                  && r.value.pcbs[s.active].waitingFor == ToInt(target))
  {
    SlotCount(s);
    if HasChild(s, target) {
      AtSwitchInv(s, Wait(target));
      assert Live(s, s.active);
      var u, p := Waiting(s, target), s.active;
      hide Inv;
      assert Live(PutBack(u), p);
      if FirstReady(PutBack(u).pcbs, PutBack(u).queue) < |PutBack(u).queue| {
        DispatchWaiter(PutBack(u), p);
      }
    }
  }

  // Without children nobody blocks.
  lemma ChildlessReturns(s: Sched, target: nat)
    requires Settled(s) && Enabled(s, Wait(target)) && |s.used| == |s.pcbs| && 0 <= s.active < |s.pcbs|
    requires forall i :: 0 <= i < |s.pcbs| && s.used[i] ==> s.pcbs[i].ppid != s.pcbs[s.active].pid
    ensures Step(s, Wait(target)) == Some(s) && Returned(s, Wait(target)) == Some(0)
  {
    WaitBlocksIff(s, target);
  }

  // ------------------------------------------------- what others do to who waits

  // A process and its children keep their slots, and its entry all but the news.
  ghost predicate Kept(s: Sched, t: Sched, p: int) {
    && |s.pcbs| == |t.pcbs| == |s.used| == |t.used| && Live(s, p) && Live(t, p) && SameBut(s.pcbs[p], t.pcbs[p])
    && forall z {:trigger t.used[z]} {:trigger s.used[z]} :: 0 <= z < |s.used| && s.used[z] && s.pcbs[z].ppid == s.pcbs[p].pid ==>
         t.used[z] && t.pcbs[z].ppid == s.pcbs[z].ppid
  }

  lemma KeptTransitive(s: Sched, m: Sched, t: Sched, p: int)
    requires Kept(s, m, p) && Kept(m, t, p)
    ensures Kept(s, t, p)
  {
  }

  // A stub in front has its turn: it frees a child of its own, if any.
  lemma TurnKept(s: Sched, p: int)
    requires Idle(s) && s.queue != [] && Stub(s, s.queue[0]) && Live(s, p) && !Stub(s, p)
    ensures Kept(s, StubTurn(s), p)
  {
    PoppedInv(s);
    var a := Popped(s);
    if Due(a.pcbs[a.active]) {
      KilledKept(a, p);
      assert Kept(s, Killed(a), p);
    }
  }

  lemma KilledKept(s: Sched, p: int)
    requires Inv(s) && Live(s, s.active) && s.pcbs[s.active].sigchildState == 0 && Live(s, p) && p != s.active
    ensures Kept(s, Killed(s), p)
  {
    KilledShape(s);
    KilledInv(s);
    LeaveShape(s, 0);
    assert s.pcbs[p].pid != s.pcbs[s.active].pid;
    hide PidsOk, QueueOk, Covered, ReapOk, Killed;
  }

  lemma {:induction false} DispatchWaiter(s: Sched, p: int)
    requires Idle(s) && FirstReady(s.pcbs, s.queue) < |s.queue| && Live(s, p) && !Stub(s, p)
    ensures Kept(s, Dispatch(s), p)
    decreases FirstReady(s.pcbs, s.queue)
  {
    if FirstReady(s.pcbs, s.queue) == 0 {
      hide PidsOk, QueueOk, Covered, ReapOk;
    } else {
      StubTurnReady(s);
      TurnKept(s, p);
      hide Inv, StubTurn, Due;
      assert Live(StubTurn(s), p) && !Stub(StubTurn(s), p);
      DispatchWaiter(StubTurn(s), p);
      DispatchMoves(s);
      KeptTransitive(s, StubTurn(s), Dispatch(s), p);
    }
  }

  lemma KeptSelf(s: Sched, p: int)
    requires |s.used| == |s.pcbs| && Live(s, p)
    ensures Kept(s, s, p)
  {
  }

  // Whatever anybody does, who waits keeps all but its news, and its children their slots,
  // until its wait ends.
  lemma StepKept(s: Sched, c: Call, p: int)
    requires Settled(s) && Enabled(s, c) && Step(s, c).Some? && Live(s, p) && s.pcbs[p].waitState == WAITING_TO_LIVE
    requires s.active == p ==> |Step(s, c).value.pcbs| == |s.pcbs| && Step(s, c).value.pcbs[p].waitState == WAITING_TO_LIVE
    ensures Kept(s, Step(s, c).value, p)
  {
    SlotCount(s);
    if HandsOn(s, c) {
      AtSwitchInv(s, c);
      SwitchKept(s, c, p);
      var u := AtSwitch(s, c);
      hide Inv, AtSwitch;
      DispatchWaiter(u, p);
      KeptTransitive(s, u, Dispatch(u), p);
    } else {
      StayKept(s, c, p);
    }
  }

  lemma SwitchKept(s: Sched, c: Call, p: int)
    requires Settled(s) && Enabled(s, c) && HandsOn(s, c) && Live(s, p) && s.pcbs[p].waitState == WAITING_TO_LIVE
    ensures Kept(s, AtSwitch(s, c), p)
  {
    SlotCount(s);
    assert Live(s, s.active);
    if c.Exit? {
      LeaveShape(s, ToInt(c.status));
      LeftLive(s, ToInt(c.status));
    }
    hide Inv;
  }

  lemma StayKept(s: Sched, c: Call, p: int)
    requires Settled(s) && Enabled(s, c) && Step(s, c).Some? && !HandsOn(s, c)
    requires Live(s, p) && s.pcbs[p].waitState == WAITING_TO_LIVE
    requires s.active == p ==> |Step(s, c).value.pcbs| == |s.pcbs| && Step(s, c).value.pcbs[p].waitState == WAITING_TO_LIVE
    ensures Kept(s, Step(s, c).value, p)
  {
    SlotCount(s);
    assert Live(s, s.active);
    if c.Resume? {
      SettledReported(s);
      hide PidsOk, QueueOk, Covered, ReapOk;
      if s.active != p {
        PidsApart(s, s.active, p);
      }
    } else if c.Wait? {
      KeptSelf(s, p);
    } else {
      hide PidsOk, QueueOk, Covered, ReapOk;
    }
  }

  lemma PidsApart(s: Sched, p: int, q: int)
    requires Inv(s) && Live(s, p) && Live(s, q) && p != q
    ensures s.pcbs[p].pid != s.pcbs[q].pid
  {
  }

  // -------------------------------------------------------------- which child ends it

  // The wait of slot p goes on in every state of a run.
  ghost predicate GoesOn(s: Sched, calls: seq<Call>, p: int)
    decreases |calls|
  {
    && 0 <= p < |s.pcbs| && s.pcbs[p].waitState == WAITING_TO_LIVE
    && (calls == []
        || (Settled(s) && Enabled(s, calls[0]) && Step(s, calls[0]).Some? && GoesOn(Step(s, calls[0]).value, calls[1..], p)))
  }

  lemma {:induction false} RunKept(s: Sched, calls: seq<Call>, t: Sched, p: int)
    requires Settled(s) && RunsTo(s, calls, t) && GoesOn(s, calls, p) && Live(s, p)
    ensures Settled(t) && Kept(s, t, p)
    decreases |calls|
  {
    if calls == [] {
      SlotCount(s);
      KeptSelf(s, p);
    } else {
      var u := Step(s, calls[0]).value;
      StepInv(s, calls[0]);
      SameSize(s, calls[0]);
      GoesOnNow(u, calls[1..], p);
      StepKept(s, calls[0], p);
      hide Inv, Step, Enabled;
      RunKept(u, calls[1..], t, p);
      KeptTransitive(s, u, t, p);
    }
  }

  lemma GoesOnNow(s: Sched, calls: seq<Call>, p: int)
    requires GoesOn(s, calls, p)
    ensures 0 <= p < |s.pcbs| && s.pcbs[p].waitState == WAITING_TO_LIVE
  {
  }

  lemma SameSize(s: Sched, c: Call)
    requires Settled(s) && Enabled(s, c) && Step(s, c).Some?
    ensures |Step(s, c).value.pcbs| == |s.pcbs|
  {
    SlotCount(s);
    if HandsOn(s, c) {
      AtSwitchInv(s, c);
      AtSwitchSize(s, c);
      hide Inv, AtSwitch;
      DispatchOrder(AtSwitch(s, c));
    } else if c.Resume? {
      SettledReported(s);
    }
  }

  lemma AtSwitchSize(s: Sched, c: Call)
    requires Settled(s) && HandsOn(s, c)
    ensures |AtSwitch(s, c).pcbs| == |s.pcbs|
  {
    if c.Exit? {
      LeaveShape(s, ToInt(c.status)) by { assert Live(s, s.active); }
    }
    hide Inv;
  }

  // Of all slots just that of the zombie child `child` of process `parent` is free in t.
  ghost predicate JustFreed(s: Sched, t: Sched, parent: nat, child: nat) {
    exists z {:trigger s.used[z]} ::
      && 0 <= z < |s.used| == |s.pcbs| && s.used[z] && t.used == s.used[z := false]
      && s.pcbs[z].state == ZOMBIE && s.pcbs[z].ppid == parent && s.pcbs[z].pid == child
  }

  // One round of the loop of a caller that waits: it ends exactly when the news is of a child
  // that `waitingFor` admits, which is then freed; otherwise it frees no child.
  lemma RoundIff(s: Sched, w: int)
    requires Settled(s) && Enabled(s, Resume) && Step(s, Resume).Some? && 0 <= s.active < |s.pcbs|
    requires s.pcbs[s.active].waitingFor == w && -0x8000_0000 <= w < 0x8000_0000
    ensures var p, b, t := s.active, s.pcbs[s.active], Step(s, Resume).value;
            var heard := b.sigchildState == 0 && (w == -1 || b.signallingChild == ToWord(w));
            && Returned(s, Resume) == (if heard then Some(b.signallingChild) else None)
            && |t.pcbs| == |s.pcbs| && (t.pcbs[p].waitState != WAITING_TO_LIVE <==> heard)
            && (heard ==> t.active == p && JustFreed(s, t, b.pid, b.signallingChild))
            && (!heard ==> Kept(s, t, p))
  {
    SlotCount(s);
    assert Live(s, s.active);
    SameSize(s, Resume);
    var b := s.pcbs[s.active];
    if b.sigchildState == 0 && (w == -1 || b.signallingChild == ToWord(w)) {
      SettledReported(s);
      assert s.used[Reported(s)];
    } else {
      RoundOn(s);
    }
  }

  lemma RoundOn(s: Sched)
    requires Settled(s) && Enabled(s, Resume) && Step(s, Resume).Some? && HandsOn(s, Resume)
    ensures |Step(s, Resume).value.pcbs| == |s.pcbs| && Kept(s, Step(s, Resume).value, s.active)
  {
    AtSwitchInv(s, Resume);
    SwitchKept(s, Resume, s.active) by { assert Live(s, s.active); }
    hide Inv;
    DispatchWaiter(PutBack(s), s.active);
    KeptTransitive(s, PutBack(s), Dispatch(PutBack(s)), s.active);
  }

  // A process calls wait, and comes up some time later, its wait not ended: now it ends exactly
  // when the last child it heard of is one its argument, cut to an int, admits; that child is
  // freed, and its id returned.  Otherwise it waits on, and none of its children is freed.
  lemma WaitEndsIff(s: Sched, target: nat, calls: seq<Call>, t: Sched)
    requires Settled(s) && Enabled(s, Wait(target)) && Step(s, Wait(target)).Some?
    requires RunsTo(Step(s, Wait(target)).value, calls, t) && GoesOn(Step(s, Wait(target)).value, calls, s.active)
    requires t.active == s.active
    ensures Settled(t) && Enabled(t, Resume) && 0 <= s.active < |s.pcbs| == |t.pcbs| && t.pcbs[s.active].pid == s.pcbs[s.active].pid
    ensures Step(t, Resume).Some? ==>
      var p, b, u := s.active, t.pcbs[s.active], Step(t, Resume).value;
      var heard := b.sigchildState == 0 && (ToInt(target) == -1 || b.signallingChild == ToWord(ToInt(target)));
      && Returned(t, Resume) == (if heard then Some(b.signallingChild) else None)
      && |u.pcbs| == |t.pcbs| && (u.pcbs[p].waitState != WAITING_TO_LIVE <==> heard)
      && (heard ==> u.active == p && JustFreed(t, u, b.pid, b.signallingChild))
      && (!heard ==> Kept(t, u, p))
  {
    SlotCount(s);
    var u, p := Step(s, Wait(target)).value, s.active;
    WaitBlocksIff(s, target);
    GoesOnNow(u, calls, p);
    BlockedKept(s, target);
    StepInv(s, Wait(target));
    RunKept(u, calls, t, p);
    hide Inv, Step, RunsTo, GoesOn;
    if Step(t, Resume).Some? {
      RoundIff(t, ToInt(target));
    }
  }

  lemma BlockedKept(s: Sched, target: nat)
    requires Settled(s) && Enabled(s, Wait(target)) && Step(s, Wait(target)).Some?
    requires |Step(s, Wait(target)).value.pcbs| == |s.pcbs| && 0 <= s.active < |s.pcbs|
    requires Step(s, Wait(target)).value.pcbs[s.active].waitState == WAITING_TO_LIVE
    ensures Live(Step(s, Wait(target)).value, s.active)
    ensures Step(s, Wait(target)).value.pcbs[s.active].waitingFor == ToInt(target)
    ensures Step(s, Wait(target)).value.pcbs[s.active].pid == s.pcbs[s.active].pid
  {
    AtSwitchInv(s, Wait(target)) by { assert HasChild(s, target); }
    var w := PutBack(Waiting(s, target));
    assert Live(s, s.active);
    hide Inv;
    assert Live(w, s.active);
    DispatchWaiter(w, s.active);
  }

  // --------------------------------------------------------------- which stub dies

  // A stub that comes up dies exactly when its last news is of its image, ended with status 0;
  // then the image's slot is freed with it.  Otherwise it goes back to wait.
  lemma StubDiesIff(s: Sched, w: int)
    requires Idle(s) && s.queue != [] && Live(s, s.queue[0]) && Stub(s, s.queue[0])
    requires s.pcbs[s.queue[0]].waitingFor == w && -0x8000_0000 <= w < 0x8000_0000
    ensures var x, t := s.queue[0], StubTurn(s);
            var b := s.pcbs[x];
            && (!Live(t, x) <==> b.sigchildState == 0 && b.signallingChild == ToWord(w))
            && (Live(t, x) ==> t == s.(queue := s.queue[1..] + [x]))
            && (!Live(t, x) ==> JustFreed(s, t, b.pid, ToWord(w)))
  {
    PoppedInv(s);
    var a := Popped(s);
    if Due(a.pcbs[a.active]) {
      KilledShape(a);
      KilledInv(a);
      assert s.used[Reported(a)];
    }
    hide Inv, Killed;
  }
}
