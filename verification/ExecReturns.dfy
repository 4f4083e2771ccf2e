/**
  That the end of an image is not only heard of at most once, but is heard of: its stub dies
  when it comes up, and a parent that waits is then the next of its family to go on.
 */
module ExecReturns {
  import opened ExecProtocol
  import opened Integers
  import opened Lifecycle
  import opened Processes
  import opened Reaping
  import opened Scheduling
  import opened Wrappers

  // ------------------------------------------------------------ the stub comes up

  // One round of the recursion, with the stub still behind others or in front.
  lemma TurnNears(s: Sched, c: Cast, m: nat)
    requires Idle(s) && FirstReady(s.pcbs, s.queue) < |s.queue| && OthersStay(s, Dispatch(s), c)
    requires Ended(s, c) && m < FirstReady(s.pcbs, s.queue) && s.queue[m] == c.x
    ensures Idle(StubTurn(s)) && FirstReady(StubTurn(s).pcbs, StubTurn(s).queue) == FirstReady(s.pcbs, s.queue) - 1
    ensures var n := StubTurn(s);
            && FirstReady(n.pcbs, n.queue) < |n.queue| && Dispatch(s) == Dispatch(n)
            && OthersStay(s, n, c) && OthersStay(n, Dispatch(n), c)
            && (m > 0 ==> n.queue[m - 1] == c.x)
  {
    StubTurnReady(s);
    StubTurnKeeps(s);
    DispatchMoves(s);
    TurnIds(s);
    var n := StubTurn(s);
    hide Inv, StubTurn, Dispatch, Ended, OthersStay, Due, Survivors, FirstReady;
    DispatchOrder(n);
    OthersMid(s, n, Dispatch(s), c);
    OthersRest(s, n, Dispatch(s), c);
  }

  // A stub whose image has ended, ahead of the first process that can go on, dies.
  lemma {:induction false} DispatchKills(s: Sched, c: Cast, m: nat)
    requires Idle(s) && FirstReady(s.pcbs, s.queue) < |s.queue| && OthersStay(s, Dispatch(s), c)
    requires Ended(s, c) && m < FirstReady(s.pcbs, s.queue) && s.queue[m] == c.x
    ensures StubDead(Dispatch(s), c)
    decreases m
  {
    hide Inv, Live, StubTurn, Ended, StubDead, OthersStay, Dispatch, FirstReady;
    TurnNears(s, c, m);
    var n := StubTurn(s);
    if m == 0 {
      HeadDies(s, c);
      DispatchStage(n, c);
    } else {
      assert Stub(s, s.queue[0]) by { HeadIsStub(s); }
      TurnStage(s, c);
      if StubDead(n, c) {
        DispatchStage(n, c);
      } else {
        DispatchKills(n, c, m - 1);
      }
    }
  }

  lemma HeadIsStub(s: Sched)
    requires 0 < FirstReady(s.pcbs, s.queue) && s.queue != []
    ensures Stub(s, s.queue[0])
  {
  }

  lemma HeadDies(s: Sched, c: Cast)
    requires Idle(s) && s.queue != [] && Ended(s, c) && s.queue[0] == c.x
    ensures StubDead(StubTurn(s), c)
  {
    PoppedInv(s);
    PoppedStage(s, c);
    StubDies(Popped(s), c);
  }

  // Behind that process, the stub comes closer to the front.
  lemma DispatchNears(s: Sched, m: nat)
    requires Idle(s) && FirstReady(s.pcbs, s.queue) < m < |s.queue|
    ensures var t, j := Dispatch(s), m - FirstReady(s.pcbs, s.queue) - 1;
            j < |t.queue| && t.queue[j] == s.queue[m]
  {
    var t, k := Dispatch(s), FirstReady(s.pcbs, s.queue);
    hide Inv, Dispatch, Live, FirstReady, Survivors;
    DispatchOrder(s);
    Behind(s.queue, k, Survivors(s.queue[..k], t), m);
  }

  // Each time the processor is handed on, the stub dies or comes closer to the front.
  lemma EndedAdvances(s: Sched, c: Cast, call: Call, m: nat)
    requires Settled(s) && Enabled(s, call) && Ended(s, c) && Allowed(s, c, call)
    requires m < |s.queue| && s.queue[m] == c.x
    ensures var t := Step(s, call).value;
            StubDead(t, c) || (Ended(t, c) && Queued(t, c.x, m - (if HandsOn(s, call) then 1 else 0)))
  {
    StepStage(s, c, call) by { assert Staged(s, c); }
    if HandsOn(s, call) {
      AtSwitchInv(s, call);
      AtSwitchQueue(s, call);
      SwitchStage(s, c, call) by { assert Staged(s, c); }
      AtSwitchIds(s, call);
      var u, t := AtSwitch(s, call), Step(s, call).value;
      StubNotReady(u, c, m);
      hide Inv, AtSwitch, Ended, StubDead, OthersStay;
      OthersRest(s, u, t, c);
      if m < FirstReady(u.pcbs, u.queue) {
        DispatchKills(u, c, m);
      } else {
        DispatchNears(u, m);
      }
    } else {
      SlotCount(s);
      hide Inv, Ended, StubDead, OthersStay;
      assert Step(s, call).value.queue[m] == c.x;
    }
  }

  lemma StubNotReady(s: Sched, c: Cast, m: nat)
    requires Ended(s, c) && m < |s.queue| && s.queue[m] == c.x
    ensures FirstReady(s.pcbs, s.queue) != m
  {
  }

  // Slot x is in the queue with at most n before it.
  ghost predicate Queued(s: Sched, x: int, n: int) {
    exists j :: 0 <= j <= n && j < |s.queue| && s.queue[j] == x
  }

  // ----------------------------------------------------------- the parent comes up

  ghost predicate Waits(s: Sched, c: Cast) {
    0 <= c.p < |s.pcbs| && s.pcbs[c.p].waitState == WAITING_TO_LIVE
  }

  // The parent goes on waiting until its wait returns.
  lemma WaitsKept(s: Sched, c: Cast, call: Call)
    requires Settled(s) && Enabled(s, call) && Staged(s, c) && Allowed(s, c, call) && Waits(s, c)
    ensures Waits(Step(s, call).value, c) || (s.active == c.p && call.Resume? && !HandsOn(s, call))
  {
    SlotCount(s);
    if HandsOn(s, call) {
      AtSwitchInv(s, call);
      SwitchWaits(s, c, call);
      hide Inv, AtSwitch, Staged, OthersStay, Survivors;
      DispatchOrder(AtSwitch(s, call));
    } else {
      StayWaits(s, c, call);
    }
  }

  lemma SwitchWaits(s: Sched, c: Cast, call: Call)
    requires Settled(s) && HandsOn(s, call) && Waits(s, c)
    ensures Waits(AtSwitch(s, call), c)
  {
    if call.Exit? {
      LeaveShape(s, ToInt(call.status)) by { SettledLive(s); }
    }
    hide Inv;
  }

  lemma StayWaits(s: Sched, c: Cast, call: Call)
    requires Settled(s) && Enabled(s, call) && Staged(s, c) && Allowed(s, c, call) && Waits(s, c) && !HandsOn(s, call)
    ensures Waits(Step(s, call).value, c) || (s.active == c.p && call.Resume?)
  {
    SlotCount(s);
    assert Live(s, c.p) && s.used[c.p];
    if call.Resume? {
      SettledReported(s);
    }
    hide Inv, OthersStay;
  }

  // A parent that waits has nothing to do but look, and finds its child.
  lemma ParentLooks(s: Sched, c: Cast, call: Call)
    requires Settled(s) && Enabled(s, call) && StubDead(s, c) && Waits(s, c) && Allowed(s, c, call) && s.active == c.p
    ensures Returned(s, call) == Some(c.xp) && Finished(Step(s, call).value, c)
  {
    assert Staged(s, c);
    ParentHears(s, c, call);
    StepStage(s, c, call);
  }

  // Each time the processor is handed on, a parent in the queue runs or comes closer.
  lemma DeadAdvances(s: Sched, c: Cast, call: Call, m: nat)
    requires Settled(s) && Enabled(s, call) && StubDead(s, c) && Waits(s, c) && Allowed(s, c, call)
    requires m < |s.queue| && s.queue[m] == c.p
    ensures var t := Step(s, call).value;
            && StubDead(t, c) && Waits(t, c)
            && (t.active == c.p || Queued(t, c.p, m - (if HandsOn(s, call) then 1 else 0)))
  {
    assert Staged(s, c);
    NotActive(s, m);
    StepStage(s, c, call);
    WaitsKept(s, c, call);
    StepAdvances(s, call, m);
  }

  lemma NotActive(s: Sched, m: nat)
    requires Settled(s) && m < |s.queue|
    ensures s.queue[m] != s.active
  {
  }

  // ------------------------------------------------------------------ whole runs

  // Once both are gone, they are gone for good.
  lemma StepFewer(s: Sched, call: Call)
    requires Settled(s) && Enabled(s, call) && Step(s, call).Some?
    ensures Fewer(s, Step(s, call).value)
  {
    SlotCount(s);
    if HandsOn(s, call) {
      AtSwitchInv(s, call);
      SwitchFewer(s, call);
      var u := AtSwitch(s, call);
      DispatchOrder(u);
      DispatchSameIds(u);
      hide Inv, AtSwitch, Dispatch;
    } else {
      StayFewer(s, call);
    }
  }

  lemma SwitchFewer(s: Sched, call: Call)
    requires Settled(s) && HandsOn(s, call)
    ensures Fewer(s, AtSwitch(s, call))
  {
    SlotCount(s);
    if call.Exit? {
      LeaveShape(s, ToInt(call.status)) by { SettledLive(s); }
    }
    hide Inv;
  }

  lemma StayFewer(s: Sched, call: Call)
    requires Settled(s) && Enabled(s, call) && Step(s, call).Some? && !HandsOn(s, call)
    ensures Fewer(s, Step(s, call).value)
  {
    SlotCount(s);
    if call.Resume? {
      SettledReported(s);
      CompleteFewer(s);
    }
    hide Inv;
  }

  lemma {:induction false} FinishedStays(s: Sched, calls: seq<Call>, t: Sched, c: Cast)
    requires Settled(s) && RunsTo(s, calls, t) && Finished(s, c)
    ensures Finished(t, c)
    decreases |calls|
  {
    if calls != [] {
      StepInv(s, calls[0]);
      StepFewer(s, calls[0]);
      FinishedKept(s, Step(s, calls[0]).value, c);
      hide Inv, Step, Finished;
      FinishedStays(Step(s, calls[0]).value, calls[1..], t, c);
    }
  }

  // Calls that are allowed until the parent has heard; after that, anything.
  ghost predicate AllowedUntil(s: Sched, calls: seq<Call>, c: Cast)
    decreases |calls|
  {
    calls == []
    || (Settled(s) && Enabled(s, calls[0]) && Step(s, calls[0]).Some? && (Staged(s, c) ==> Allowed(s, c, calls[0]))
        && AllowedUntil(Step(s, calls[0]).value, calls[1..], c))
  }

  // The first thing a wait of the parent returned is the id of the caller of exec, and both
  // processes are gone.
  ghost predicate Heard(s: Sched, calls: seq<Call>, t: Sched, c: Cast) {
    Finished(t, c) && Returns(s, calls, c.p) != [] && Returns(s, calls, c.p)[0] == c.xp
  }

  lemma HeardLater(s: Sched, calls: seq<Call>, t: Sched, c: Cast)
    requires calls != [] && Settled(s) && Enabled(s, calls[0]) && Step(s, calls[0]).Some?
    requires Heard(Step(s, calls[0]).value, calls[1..], t, c)
    requires s.active == c.p ==> Returned(s, calls[0]) == None
    ensures Heard(s, calls, t, c)
  {
    var rest := Returns(Step(s, calls[0]).value, calls[1..], c.p);
    assert [] + rest == rest;
  }

  lemma HeardNow(s: Sched, calls: seq<Call>, t: Sched, c: Cast)
    requires calls != [] && Settled(s) && RunsTo(s, calls, t) && StubDead(s, c) && Waits(s, c)
    requires Enabled(s, calls[0]) && Allowed(s, c, calls[0]) && s.active == c.p
    ensures Heard(s, calls, t, c)
  {
    ParentLooks(s, c, calls[0]);
    StepInv(s, calls[0]);
    hide Inv, Step, Finished, Allowed, StubDead, Waits;
    FinishedStays(Step(s, calls[0]).value, calls[1..], t, c);
  }

  lemma {:induction false} DeadReturns(s: Sched, calls: seq<Call>, t: Sched, c: Cast, m: int)
    requires Settled(s) && RunsTo(s, calls, t) && AllowedUntil(s, calls, c)
    requires StubDead(s, c) && Waits(s, c) && (s.active == c.p || Queued(s, c.p, m))
    requires Turns(s, calls) > m + 1 && m >= -1
    ensures Heard(s, calls, t, c)
    decreases |calls|
  {
    assert Staged(s, c);
    if s.active == c.p {
      HeardNow(s, calls, t, c);
    } else {
      var j :| 0 <= j <= m && j < |s.queue| && s.queue[j] == c.p;
      StepInv(s, calls[0]);
      DeadAdvances(s, c, calls[0], j);
      hide Inv, Step, StubDead, Waits, Allowed, HandsOn, Returned;
      var u := Step(s, calls[0]).value;
      var h := if HandsOn(s, calls[0]) then 1 else 0;
      assert Turns(s, calls) == h + Turns(u, calls[1..]);
      DeadReturns(u, calls[1..], t, c, j - h);
      HeardLater(s, calls, t, c);
    }
  }

  lemma EndedWaits(s: Sched, c: Cast, call: Call)
    requires Settled(s) && Enabled(s, call) && Ended(s, c) && Allowed(s, c, call) && Waits(s, c)
    ensures Waits(Step(s, call).value, c)
    ensures s.active == c.p ==> Returned(s, call) == None
  {
    assert Staged(s, c) && !StubDead(s, c);
    WaitsKept(s, c, call);
    if s.active == c.p {
      ParentHears(s, c, call);
    }
  }

  lemma ParentPlace(s: Sched, c: Cast)
    requires Settled(s) && StubDead(s, c)
    ensures s.active == c.p || Queued(s, c.p, |s.queue| - 1)
  {
    if s.active != c.p {
      assert c.p in s.queue;
    }
  }

  lemma StubPlace(s: Sched, c: Cast) returns (m: nat)
    requires Settled(s) && Ended(s, c)
    ensures m < |s.queue| && s.queue[m] == c.x
  {
    assert c.x in s.queue;
    m :| m < |s.queue| && s.queue[m] == c.x;
  }

  lemma {:induction false} EndedReturns(s: Sched, calls: seq<Call>, t: Sched, c: Cast, m: nat)
    requires Settled(s) && RunsTo(s, calls, t) && AllowedUntil(s, calls, c)
    requires Ended(s, c) && Waits(s, c) && m < |s.queue| && s.queue[m] == c.x
    requires Turns(s, calls) > m + |s.pcbs|
    ensures Heard(s, calls, t, c)
    decreases |calls|
  {
    assert Staged(s, c);
    var u := Step(s, calls[0]).value;
    var h := if HandsOn(s, calls[0]) then 1 else 0;
    assert Turns(s, calls) == h + Turns(u, calls[1..]);
    hide Inv, Step, StubDead, Ended, Waits, Allowed, HandsOn, Returned, Turns, Staged;
    StepInv(s, calls[0]);
    EndedAdvances(s, c, calls[0], m);
    EndedWaits(s, c, calls[0]);
    if StubDead(u, c) {
      ParentPlace(u, c);
      QueueHasRoom(u);
      DeadReturns(u, calls[1..], t, c, |u.queue| - 1);
    } else {
      var j :| 0 <= j <= m - h && j < |u.queue| && u.queue[j] == c.x;
      EndedReturns(u, calls[1..], t, c, j);
    }
    HeardLater(s, calls, t, c);
  }

  // An image has ended and the parent of its stub waits.  Under any scheduling, once the
  // processor has been handed on twice as often as there are process slots, that wait has
  // returned: what it returned is the id of the caller of exec, and neither that process nor
  // its image is there any more.
  lemma ParentReturns(s: Sched, calls: seq<Call>, t: Sched, c: Cast)
    requires Settled(s) && RunsTo(s, calls, t) && AllowedUntil(s, calls, c)
    requires (Ended(s, c) || StubDead(s, c)) && Waits(s, c)
    requires Turns(s, calls) >= 2 * |s.pcbs|
    ensures Heard(s, calls, t, c)
  {
    hide Inv, StubDead, Ended, Waits, Turns, RunsTo, AllowedUntil, Heard;
    QueueHasRoom(s);
    if Ended(s, c) {
      var m := StubPlace(s, c);
      EndedReturns(s, calls, t, c, m);
    } else {
      ParentPlace(s, c);
      DeadReturns(s, calls, t, c, |s.queue| - 1);
    }
  }

  // The stub of an ended image is not there after the processor was handed on more often than
  // there were processes before it in the queue.
  lemma {:induction false} StubDiesInTime(s: Sched, calls: seq<Call>, t: Sched, c: Cast, m: nat)
    requires Settled(s) && RunsTo(s, calls, t) && AllowedRun(s, calls, c)
    requires Ended(s, c) && m < |s.queue| && s.queue[m] == c.x && Turns(s, calls) > m
    ensures StubDead(t, c) || Finished(t, c)
    decreases |calls|
  {
    assert Staged(s, c);
    var u := Step(s, calls[0]).value;
    var h := if HandsOn(s, calls[0]) then 1 else 0;
    assert Turns(s, calls) == h + Turns(u, calls[1..]);
    hide Inv, Step, StubDead, Ended, Allowed, HandsOn, Turns, Finished;
    StepInv(s, calls[0]);
    EndedAdvances(s, c, calls[0], m);
    if StubDead(u, c) {
      DeadStays(u, calls[1..], t, c);
    } else {
      var j :| 0 <= j <= m - h && j < |u.queue| && u.queue[j] == c.x;
      StubDiesInTime(u, calls[1..], t, c, j);
    }
  }

  lemma {:induction false} DeadStays(s: Sched, calls: seq<Call>, t: Sched, c: Cast)
    requires Settled(s) && RunsTo(s, calls, t) && AllowedRun(s, calls, c) && StubDead(s, c)
    ensures StubDead(t, c) || Finished(t, c)
    decreases |calls|
  {
    if calls != [] {
      assert Staged(s, c);
      StepInv(s, calls[0]);
      StepStage(s, c, calls[0]);
      var u := Step(s, calls[0]).value;
      FinishedNotStaged(u, c);
      hide Inv, Step, StubDead, Finished, Allowed, Staged;
      if StubDead(u, c) {
        DeadStays(u, calls[1..], t, c);
      } else {
        assert calls[1..] == [];
      }
    }
  }

  // And the machine does go on: as long as the parent has not heard and does not exit itself,
  // no call stops it but a fork or an exec with a full table.
  lemma StagedGoesOn(s: Sched, c: Cast, call: Call)
    requires Settled(s) && Enabled(s, call) && Staged(s, c) && (s.active == c.p ==> !call.Exit?)
    ensures Step(s, call).None? ==> (call.Fork? || call.Exec?) && forall i :: 0 <= i < |s.used| ==> s.used[i]
  {
    StepIff(s, call);
    if s.active != c.p {
      assert c.p in s.queue;
      var k :| 0 <= k < |s.queue| && s.queue[k] == c.p;
      assert !Stub(s, s.queue[k]);
    }
  }
}
