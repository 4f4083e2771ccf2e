/**
  Who hears of an exit, whose slot is freed, and which zombies stay for ever.
 */
module Reaping {
  import opened Integers
  import opened Lifecycle
  import opened Processes
  import opened Scheduling
  import opened Wrappers

  // ------------------------------------------------------- what one death changes

  // The active process of s is dead in t, and its parent, if it is still there, knows.
  ghost predicate Departed(s: Sched, t: Sched, status: int)
    requires 0 <= s.active < |s.pcbs|
  {
    var me := s.pcbs[s.active];
    && |t.pcbs| == |s.pcbs| && |t.used| == |t.pcbs|
    && t.pcbs[s.active] == me.(state := ZOMBIE)
    && forall i {:trigger t.pcbs[i]} {:trigger s.pcbs[i]} :: 0 <= i < |s.pcbs| && i != s.active ==>
         if me.ppid != 0 && s.pcbs[i].pid == me.ppid
         then News(s.pcbs[i], t.pcbs[i], status, me.pid)
         else t.pcbs[i] == s.pcbs[i] || s.pcbs[i].pid == 0
  }

  // An entry of the table after a child has signalled; a slot can be reaped meanwhile.
  predicate News(a: Pcb, b: Pcb, status: int, child: nat) {
    b == a.(sigchildState := status, signallingChild := child)
  }

  lemma LeftDeparted(s: Sched, status: int)
    requires Inv(s) && Live(s, s.active)
    ensures Departed(s, Left(s, status), status) && Left(s, status).used == s.used
  {
    LeaveShape(s, status);
  }

  // A stub dies: its image's slot, and no other, is free; and that slot held a zombie.
  lemma KilledShape(s: Sched)
    requires Inv(s) && Live(s, s.active) && s.pcbs[s.active].sigchildState == 0
    ensures var t, c := Killed(s), Reported(s);
            && c < |s.pcbs| && Told(s, s.active, c) && c != s.active
            && |t.pcbs| == |s.pcbs| == |Left(s, 0).pcbs| == |s.used|
            && t.used == s.used[c := false]
            && Departed(s, t.(pcbs := t.pcbs[c := Left(s, 0).pcbs[c]]), 0)
            && t.pcbs[c] == Left(s, 0).pcbs[c].(state := DEAD) && t.pcbs[c].pid == s.pcbs[c].pid
  {
    LeftDeparted(s, 0);
    KilledFinds(s);
    var u, c, t := Left(s, 0), Reported(s), Killed(s);
    assert t.pcbs[c := u.pcbs[c]] == u.pcbs;
  }

  // ------------------------------------------------------------- zombies for ever

  // Nobody will ever look for the zombie in slot z again.
  ghost predicate Lost(s: Sched, z: int) {
    && 0 <= z < |s.pcbs| && z < |s.used| && s.used[z] && s.pcbs[z].state == ZOMBIE
    && forall p {:trigger Live(s, p)} :: Live(s, p) && s.pcbs[p].sigchildState == 0 ==> s.pcbs[p].signallingChild != s.pcbs[z].pid
  }

  lemma LeftLost(s: Sched, status: int, z: int)
    requires Inv(s) && Live(s, s.active) && Lost(s, z)
    ensures Lost(Left(s, status), z) && Left(s, status).pcbs[z].pid == s.pcbs[z].pid
  {
    hide QueueOk, Covered, ReapOk;
    LeaveShape(s, status);
    LeftLive(s, status);
    assert s.pcbs[s.active].pid != s.pcbs[z].pid;
  }

  lemma KilledLost(s: Sched, z: int)
    requires Inv(s) && Live(s, s.active) && s.pcbs[s.active].sigchildState == 0 && Lost(s, z)
    ensures Lost(Killed(s), z) && Killed(s).pcbs[z].pid == s.pcbs[z].pid
  {
    LeftLost(s, 0, z);
    KilledShape(s);
    KilledInv(s);
    LeftLive(s, 0);
    hide Inv;
    var t, u, c := Killed(s), Left(s, 0), Reported(s);
    assert c != z;
    assert forall i :: 0 <= i < |s.pcbs| && i != c ==> t.pcbs[i] == u.pcbs[i];
    assert forall p {:trigger Live(t, p)} :: Live(t, p) ==> Live(u, p) && p != c;
  }

  lemma TurnLost(s: Sched, z: int)
    requires Idle(s) && s.queue != [] && Lost(s, z)
    ensures Lost(StubTurn(s), z) && StubTurn(s).pcbs[z].pid == s.pcbs[z].pid
  {
    PoppedInv(s);
    var p := Popped(s);
    hide Inv, Killed;
    assert Lost(p, z);
    if Due(p.pcbs[p.active]) {
      KilledLost(p, z);
    } else {
      assert forall i {:trigger Live(PutBack(p), i)} :: Live(PutBack(p), i) <==> Live(p, i);
      assert Lost(PutBack(p), z);
    }
  }

  lemma {:induction false} DispatchLost(s: Sched, z: int)
    requires Idle(s) && FirstReady(s.pcbs, s.queue) < |s.queue| && Lost(s, z)
    ensures Lost(Dispatch(s), z) && Dispatch(s).pcbs[z].pid == s.pcbs[z].pid
    decreases FirstReady(s.pcbs, s.queue)
  {
    if FirstReady(s.pcbs, s.queue) == 0 {
      PoppedInv(s);
      hide Inv;
      assert Lost(Popped(s), z);
    } else {
      StubTurnReady(s);
      TurnLost(s, z);
      hide Inv, Lost, StubTurn, Due;
      DispatchLost(StubTurn(s), z);
    }
  }

  lemma StepLost(s: Sched, c: Call, z: int)
    requires Settled(s) && Enabled(s, c) && Step(s, c).Some? && Lost(s, z)
    ensures Lost(Step(s, c).value, z) && Step(s, c).value.pcbs[z].pid == s.pcbs[z].pid
  {
    if HandsOn(s, c) {
      AtSwitchInv(s, c);
      AtSwitchLost(s, c, z);
      hide Inv, Lost, Dispatch, AtSwitch;
      DispatchLost(AtSwitch(s, c), z);
    } else if c.Fork? {
      SpawnedLost(s, ForkingParent(s), z);
    } else if c.Exec? {
      SpawnedLost(s, ExecStub(s), z);
    } else if c.Resume? {
      CompletedLost(s, z);
    }
  }

  lemma AtSwitchLost(s: Sched, c: Call, z: int)
    requires Settled(s) && HandsOn(s, c) && Lost(s, z)
    ensures Lost(AtSwitch(s, c), z) && AtSwitch(s, c).pcbs[z].pid == s.pcbs[z].pid
  {
    assert Live(s, s.active);
    if c.Exit? {
      LeftLost(s, ToInt(c.status), z);
    } else {
      hide Inv;
      assert forall i {:trigger Live(AtSwitch(s, c), i)} :: Live(AtSwitch(s, c), i) <==> Live(s, i);
    }
  }

  lemma SpawnedLost(s: Sched, b: Pcb, z: int)
    requires Settled(s) && FirstFree(s.used) < |s.pcbs| && Lost(s, z)
    requires var a := s.pcbs[s.active];
             && b == a.(waitState := b.waitState, waitingFor := b.waitingFor, sigchildState := b.sigchildState)
             && (b.sigchildState == 0 ==> a.sigchildState == 0)
    ensures Lost(Spawned(s, b), z) && Spawned(s, b).pcbs[z].pid == s.pcbs[z].pid
  {
    SpawnedInv(s, b);
    assert Live(s, s.active);
    hide Inv;
  }

  lemma CompletedLost(s: Sched, z: int)
    requires Settled(s) && s.pcbs[s.active].sigchildState == 0 && Lost(s, z)
    requires Reported(s) < |s.pcbs| && Reported(s) != s.active && |s.used| == |s.pcbs|
    ensures Lost(Completed(s), z) && Completed(s).pcbs[z].pid == s.pcbs[z].pid
  {
    CompletedInv(s);
    assert Live(s, s.active);
    hide Inv;
  }

  // A lost zombie keeps its slot in every later state.
  lemma {:induction false} LostForEver(s: Sched, calls: seq<Call>, t: Sched, z: int)
    requires Settled(s) && RunsTo(s, calls, t) && Lost(s, z)
    ensures Lost(t, z) && t.pcbs[z].pid == s.pcbs[z].pid
    decreases |calls|
  {
    if calls != [] {
      hide Inv, Lost, Step;
      StepInv(s, calls[0]);
      StepLost(s, calls[0], z);
      LostForEver(Step(s, calls[0]).value, calls[1..], t, z);
    }
  }

  // What wait gives its caller, when it returns.
  ghost function Returned(s: Sched, call: Call): Option<nat>
    requires Settled(s)
  {
    if call.Resume? && Satisfied(s.pcbs[s.active]) then Some(s.pcbs[s.active].signallingChild)
    else if call.Wait? && !HasChild(s, call.target) then Some(0)
    else None
  }

  // What the waits of a slot return in a run.
  ghost function Returns(s: Sched, calls: seq<Call>, p: int): seq<nat>
    decreases |calls|
  {
    if calls == [] || !Settled(s) || !Enabled(s, calls[0]) || Step(s, calls[0]).None? then []
    else
      (if s.active == p && Returned(s, calls[0]).Some? then [Returned(s, calls[0]).value] else [])
      + Returns(Step(s, calls[0]).value, calls[1..], p)
  }

  // No wait ever returns a lost child.
  lemma {:induction false} LostNotReturned(s: Sched, calls: seq<Call>, t: Sched, z: int, p: int)
    requires Settled(s) && RunsTo(s, calls, t) && Lost(s, z)
    ensures s.pcbs[z].pid !in Returns(s, calls, p)
    decreases |calls|
  {
    if calls != [] {
      LostNotNow(s, calls[0], z);
      hide Inv, Lost, Step, Returned;
      StepInv(s, calls[0]);
      StepLost(s, calls[0], z);
      LostNotReturned(Step(s, calls[0]).value, calls[1..], t, z, p);
    }
  }

  lemma LostNotNow(s: Sched, c: Call, z: int)
    requires Settled(s) && Lost(s, z)
    ensures Returned(s, c) != Some(s.pcbs[z].pid)
  {
    assert Live(s, s.active);
  }

  // The one field for news of a child is overwritten: when a second child of p exits
  // before the first is waited for, the first is lost.
  lemma SecondExitLoses(s: Sched, status: nat, p: int, z: int)
    requires Settled(s) && Enabled(s, Exit(status)) && Step(s, Exit(status)).Some?
    requires Live(s, p) && s.pcbs[p].sigchildState == 0 && Told(s, p, z)
    requires s.pcbs[s.active].ppid == s.pcbs[p].pid
    ensures Lost(Step(s, Exit(status)).value, z)
  {
    var c := Exit(status);
    AtSwitchInv(s, c);
    DeathLoses(s, ToInt(status), p, z) by { assert Live(s, s.active); }
    hide Inv, Lost, Dispatch;
    DispatchLost(AtSwitch(s, c), z);
  }

  lemma DeathLoses(s: Sched, status: int, p: int, z: int)
    requires Inv(s) && Live(s, s.active) && Live(s, p) && s.pcbs[p].sigchildState == 0 && Told(s, p, z)
    requires s.pcbs[s.active].ppid == s.pcbs[p].pid
    ensures Lost(Left(s, status), z)
  {
    LeaveShape(s, status);
    LeftLive(s, status);
    var u := Left(s, status);
    forall q | Live(u, q) && u.pcbs[q].sigchildState == 0 ensures u.pcbs[q].signallingChild != s.pcbs[z].pid {
      assert s.pcbs[s.active].pid != s.pcbs[z].pid;
      if q != p {
        OnlyParentTold(s, p, q, z);
      }
    }
  }

  // Only the parent is ever told about a child.
  lemma OnlyParentTold(s: Sched, p: int, q: int, z: int)
    requires Inv(s) && Live(s, p) && Told(s, p, z) && Live(s, q) && s.pcbs[q].sigchildState == 0 && q != p
    ensures s.pcbs[q].signallingChild != s.pcbs[z].pid
  {
    var d :| Told(s, q, d);
    assert s.pcbs[p].pid != s.pcbs[q].pid;
    assert d != z;
  }

  // A fork before the wait loses it as well: fork overwrites the status.
  lemma ForkLoses(s: Sched, p: int, z: int)
    requires Settled(s) && Enabled(s, Fork) && Step(s, Fork).Some?
    requires s.active == p && s.pcbs[p].sigchildState == 0 && Told(s, p, z)
    ensures Lost(Step(s, Fork).value, z)
  {
    SlotCount(s);
    var t := Spawned(s, ForkingParent(s));
    SpawnedInv(s, ForkingParent(s));
    forall q | Live(t, q) && t.pcbs[q].sigchildState == 0 ensures t.pcbs[q].signallingChild != s.pcbs[z].pid {
      OnlyParentTold(s, p, q, z);
    }
  }

  // ------------------------------------------------------ exactly which are lost

  // The process in slot p has news of the zombie in slot z, and can still wait for it.
  ghost predicate Hears(s: Sched, p: int, z: int) {
    Live(s, p) && s.pcbs[p].sigchildState == 0 && Told(s, p, z)
  }

  // Some child of p that was alive in s is dead in t.
  ghost predicate ChildDies(s: Sched, t: Sched, p: int) {
    0 <= p < |s.pcbs| && exists q {:trigger Live(s, q)} :: Live(s, q) && !Live(t, q) && s.pcbs[q].ppid == s.pcbs[p].pid
  }

  // Who exits is lost at once exactly when the status is not 0, as an int, or the parent is
  // gone.
  lemma ExitLosesIff(s: Sched, status: nat)
    requires Settled(s)
    ensures Lost(Left(s, ToInt(status)), s.active) <==>
              ToInt(status) != 0 || !exists p :: Live(s, p) && s.pcbs[p].pid == s.pcbs[s.active].ppid
  {
    assert Live(s, s.active);
    LeaveShape(s, ToInt(status));
    LeftLive(s, ToInt(status));
    hide QueueOk, Covered;
    var u, me := Left(s, ToInt(status)), s.pcbs[s.active];
    if p :| Live(s, p) && s.pcbs[p].pid == me.ppid {
      assert u.pcbs[p].signallingChild == me.pid && u.pcbs[p].sigchildState == ToInt(status);
      assert ToInt(status) == 0 ==> Live(u, p) && !Lost(u, s.active);
    }
    forall q | Live(u, q) && u.pcbs[q].sigchildState == 0 && u.pcbs[q].signallingChild == me.pid
      ensures ToInt(status) == 0 && s.pcbs[q].pid == me.ppid
    {
      if u.pcbs[q] == s.pcbs[q] {
        NewsOfTheLiving(s, q);
      }
    }
  }

  // Nobody has news of a process that has not exited.
  lemma NewsOfTheLiving(s: Sched, q: int)
    requires Settled(s) && Live(s, q) && s.pcbs[q].sigchildState == 0
    ensures s.pcbs[q].signallingChild != s.pcbs[s.active].pid
  {
    assert Live(s, s.active);
    var c :| Told(s, q, c);
    assert c != s.active;
  }

  // A failure is never heard of: whoever waits for it, and however long.
  lemma FailureNotReturned(s: Sched, status: nat, calls: seq<Call>, t: Sched, p: int)
    requires Settled(s) && Enabled(s, Exit(status)) && Step(s, Exit(status)).Some? && ToInt(status) != 0
    requires RunsTo(Step(s, Exit(status)).value, calls, t)
    ensures Lost(t, s.active) && t.pcbs[s.active].pid == s.pcbs[s.active].pid
    ensures s.pcbs[s.active].pid !in Returns(Step(s, Exit(status)).value, calls, p)
  {
    var c := Exit(status);
    ExitLosesIff(s, status);
    AtSwitchInv(s, c);
    StepInv(s, c);
    LeaveShape(s, ToInt(status)) by { assert Live(s, s.active); }
    hide Inv, Lost, Dispatch, Left;
    DispatchLost(AtSwitch(s, c), s.active);
    var u := Step(s, c).value;
    LostForEver(u, calls, t, s.active);
    LostNotReturned(u, calls, t, s.active, p);
  }

  // -------------------------------------- what one step does to a zombie told about

  // The zombie in slot z, of which p had news in s: freed by the death of p, lost to the
  // death of another child, or as it was.
  ghost predicate Fate(s: Sched, t: Sched, p: int, z: int) {
    && 0 <= z < |t.used| == |t.pcbs|
    && (!t.used[z] ==> !Live(t, p))
    && (t.used[z] && ChildDies(s, t, p) ==> Lost(t, z))
    && (t.used[z] && !ChildDies(s, t, p) ==> Hears(t, p, z))
  }

  lemma KilledTold(s: Sched, p: int, z: int)
    requires Inv(s) && Live(s, s.active) && s.pcbs[s.active].sigchildState == 0 && Hears(s, p, z)
    ensures Fate(s, Killed(s), p, z)
  {
    KilledShape(s);
    KilledInv(s);
    ReportedIs(s);
    var t, c := Killed(s), Reported(s);
    if s.active == p {
      assert c == z;
    } else {
      assert c != z by { assert s.pcbs[p].pid != s.pcbs[s.active].pid; }
      if s.pcbs[s.active].ppid == s.pcbs[p].pid {
        KilledLoses(s, p, z);
        assert ChildDies(s, t, p);
      } else {
        KilledElsewhere(s, p, z);
      }
    }
  }

  lemma KilledElsewhere(s: Sched, p: int, z: int)
    requires Inv(s) && Live(s, s.active) && s.pcbs[s.active].sigchildState == 0 && Hears(s, p, z)
    requires s.active != p && s.pcbs[s.active].ppid != s.pcbs[p].pid && Reported(s) != z
    ensures Hears(Killed(s), p, z) && !ChildDies(s, Killed(s), p)
  {
    KilledShape(s);
    KilledInv(s);
    hide QueueOk, Covered, ReapOk, Killed;
    var t := Killed(s);
    assert t.pcbs[p] == s.pcbs[p] && SameBut(s.pcbs[z], t.pcbs[z]);
  }

  // Another child that dies as a stub takes the place in the news.
  lemma KilledLoses(s: Sched, p: int, z: int)
    requires Inv(s) && Live(s, s.active) && s.pcbs[s.active].sigchildState == 0 && Hears(s, p, z)
    requires s.pcbs[s.active].ppid == s.pcbs[p].pid
    ensures Lost(Killed(s), z)
  {
    DeathLoses(s, 0, p, z);
    KilledShape(s);
    KilledInv(s);
    LeftLive(s, 0);
    var t, u, c := Killed(s), Left(s, 0), Reported(s);
    assert c != z by { assert s.pcbs[p].pid != s.pcbs[s.active].pid; }
    hide Inv, Killed, Left;
    assert forall i :: 0 <= i < |s.pcbs| && i != c ==> t.pcbs[i] == u.pcbs[i];
    assert forall q {:trigger Live(t, q)} :: Live(t, q) ==> Live(u, q) && q != c;
  }

  lemma SameFate(s: Sched, t: Sched, p: int, z: int)
    requires Hears(s, p, z) && Hears(t, p, z)
    requires forall i {:trigger Live(t, i)} {:trigger Live(s, i)} ::
               Live(s, i) && s.pcbs[i].ppid == s.pcbs[p].pid ==> Live(t, i)
    requires |t.used| == |t.pcbs|
    ensures Fate(s, t, p, z)
  {
    assert !ChildDies(s, t, p);
  }

  lemma TurnTold(s: Sched, p: int, z: int)
    requires Idle(s) && s.queue != [] && Hears(s, p, z)
    ensures Fate(s, StubTurn(s), p, z)
  {
    PoppedInv(s);
    var a, x := Popped(s), s.queue[0];
    assert Hears(a, p, z) && Live(a, x);
    if Due(a.pcbs[x]) {
      KilledTold(a, p, z);
      FateFrom(s, a, Killed(a), p, z);
    } else {
      var t := PutBack(a);
      assert forall i {:trigger Live(t, i)} :: Live(t, i) <==> Live(s, i);
      assert Hears(t, p, z) && s.active == NOBODY;
      assert !ChildDies(s, t, p);
    }
  }

  // Nobody died between s and m.
  lemma FateFrom(s: Sched, m: Sched, t: Sched, p: int, z: int)
    requires Fate(m, t, p, z) && |m.pcbs| == |s.pcbs| && 0 <= p < |s.pcbs|
    requires forall i {:trigger Live(m, i)} {:trigger Live(s, i)} ::
               (Live(s, i) && s.pcbs[i].ppid == s.pcbs[p].pid ==> Live(m, i)) && (Live(m, i) ==> Live(s, i))
    requires forall i {:trigger m.pcbs[i]} {:trigger s.pcbs[i]} :: 0 <= i < |s.pcbs| && (Live(s, i) || i == p) ==>
               m.pcbs[i].ppid == s.pcbs[i].ppid && m.pcbs[i].pid == s.pcbs[i].pid
    ensures Fate(s, t, p, z)
  {
    assert ChildDies(s, t, p) <==> ChildDies(m, t, p);
  }

  // What happened to the zombie before the rest of the recursion decides.
  lemma FateThen(s: Sched, m: Sched, t: Sched, p: int, z: int)
    requires Hears(s, p, z) && Fate(s, m, p, z) && |m.pcbs| == |s.pcbs| && 0 <= z < |t.used| == |t.pcbs|
    requires m.used[z] && Hears(m, p, z) ==> Fate(m, t, p, z)
    requires Lost(m, z) ==> Lost(t, z)
    requires t.used[z] ==> m.used[z]
    requires forall i {:trigger Live(t, i)} :: Live(t, i) ==> Live(m, i)
    requires forall i {:trigger Live(m, i)} :: Live(m, i) ==> Live(s, i)
    requires forall i {:trigger m.pcbs[i]} :: 0 <= i < |s.pcbs| ==> m.pcbs[i].ppid == s.pcbs[i].ppid && m.pcbs[i].pid == s.pcbs[i].pid
    ensures Fate(s, t, p, z)
  {
    if m.used[z] {
      if ChildDies(s, m, p) {
        assert ChildDies(s, t, p);
      } else {
        assert ChildDies(s, t, p) <==> ChildDies(m, t, p);
      }
    }
  }

  // Slots keep their ids, and are only freed.
  ghost predicate SameIds(s: Sched, t: Sched) {
    && |t.pcbs| == |s.pcbs| == |t.used| == |s.used|
    && forall i {:trigger t.pcbs[i]} {:trigger t.used[i]} :: 0 <= i < |s.pcbs| ==>
         t.pcbs[i].pid == s.pcbs[i].pid && t.pcbs[i].ppid == s.pcbs[i].ppid && (t.used[i] ==> s.used[i])
  }

  lemma TurnSameIds(s: Sched)
    requires Idle(s) && s.queue != []
    ensures SameIds(s, StubTurn(s))
  {
    PoppedInv(s);
    var p := Popped(s);
    if Due(p.pcbs[p.active]) {
      KilledShape(p);
      LeaveShape(p, 0);
    }
    hide PidsOk, QueueOk, Covered, ReapOk, Killed;
  }

  lemma {:induction false} DispatchSameIds(s: Sched)
    requires Idle(s) && FirstReady(s.pcbs, s.queue) < |s.queue|
    ensures SameIds(s, Dispatch(s))
    decreases FirstReady(s.pcbs, s.queue)
  {
    if FirstReady(s.pcbs, s.queue) > 0 {
      StubTurnReady(s);
      TurnSameIds(s);
      hide Inv, StubTurn, Due;
      DispatchSameIds(StubTurn(s));
    } else {
      hide PidsOk, QueueOk, Covered, ReapOk;
    }
  }

  lemma {:induction false} DispatchTold(s: Sched, p: int, z: int)
    requires Idle(s) && FirstReady(s.pcbs, s.queue) < |s.queue| && Hears(s, p, z)
    ensures Fate(s, Dispatch(s), p, z)
    decreases FirstReady(s.pcbs, s.queue)
  {
    var t := Dispatch(s);
    if FirstReady(s.pcbs, s.queue) == 0 {
      PoppedInv(s);
      assert Hears(t, p, z);
      SameFate(s, t, p, z);
    } else {
      StubTurnReady(s);
      TurnTold(s, p, z);
      var m := StubTurn(s);
      StubTurnKeeps(s);
      TurnSameIds(s);
      DispatchOrder(m);
      DispatchSameIds(m);
      hide Inv, Live, StubTurn, Due, Dispatch, Hears, Lost, Fate, FirstReady, Survivors;
      assert Dispatch(m) == t by { DispatchMoves(s); }
      if Lost(m, z) {
        DispatchLost(m, z);
      }
      if Hears(m, p, z) {
        DispatchTold(m, p, z);
      }
      InRange(s, p, z);
      FateThen(s, m, t, p, z);
    }
  }

  lemma InRange(s: Sched, p: int, z: int)
    requires Hears(s, p, z)
    ensures 0 <= z < |s.pcbs| && z < |s.used|
  {
  }

  lemma DispatchMoves(s: Sched)
    requires Idle(s) && 0 < FirstReady(s.pcbs, s.queue) < |s.queue|
    ensures Idle(StubTurn(s)) && FirstReady(StubTurn(s).pcbs, StubTurn(s).queue) < |StubTurn(s).queue|
    ensures Dispatch(s) == Dispatch(StubTurn(s))
  {
    StubTurnReady(s);
  }

  // ------------------------------------------------------------------ one call

  // The caller's wait returns the zombie, and frees it.
  ghost predicate ReapedBy(s: Sched, c: Call, p: int)
    requires Settled(s)
  {
    s.active == p && c.Resume? && Satisfied(s.pcbs[p])
  }

  lemma SwitchTold(s: Sched, c: Call, p: int, z: int)
    requires Settled(s) && Enabled(s, c) && HandsOn(s, c) && Hears(s, p, z) && !c.Exit?
    ensures Hears(AtSwitch(s, c), p, z)
    ensures forall i {:trigger Live(AtSwitch(s, c), i)} :: Live(AtSwitch(s, c), i) <==> Live(s, i)
    ensures forall i {:trigger AtSwitch(s, c).pcbs[i]} :: 0 <= i < |s.pcbs| ==>
              AtSwitch(s, c).pcbs[i].ppid == s.pcbs[i].ppid && AtSwitch(s, c).pcbs[i].pid == s.pcbs[i].pid
  {
    assert Live(s, s.active);
    hide Inv;
  }

  lemma ExitTold(s: Sched, status: nat, p: int, z: int)
    requires Settled(s) && Hears(s, p, z) && p != s.active && s.pcbs[s.active].ppid != s.pcbs[p].pid
    ensures var u := Left(s, ToInt(status));
            && Hears(u, p, z)
            && (forall i {:trigger Live(u, i)} :: Live(u, i) <==> Live(s, i) && i != s.active)
            && |u.pcbs| == |s.pcbs|
            && (forall i {:trigger u.pcbs[i]} :: 0 <= i < |s.pcbs| ==> u.pcbs[i].ppid == s.pcbs[i].ppid && u.pcbs[i].pid == s.pcbs[i].pid)
  {
    assert Live(s, s.active);
    LeaveShape(s, ToInt(status));
    LeftLive(s, ToInt(status));
    hide Inv, Left;
  }

  lemma LeaverLoses(s: Sched, status: nat, z: int)
    requires Settled(s) && Hears(s, s.active, z)
    ensures Lost(Left(s, ToInt(status)), z)
  {
    LeaveShape(s, ToInt(status));
    LeftLive(s, ToInt(status));
    var u := Left(s, ToInt(status));
    forall q | Live(u, q) && u.pcbs[q].sigchildState == 0
      ensures u.pcbs[q].signallingChild != s.pcbs[z].pid
    {
      assert s.pcbs[s.active].pid != s.pcbs[z].pid;
      if u.pcbs[q] == s.pcbs[q] {
        OnlyParentTold(s, s.active, q, z);
      }
    }
  }

  lemma SpawnedTold(s: Sched, b: Pcb, p: int, z: int)
    requires Settled(s) && FirstFree(s.used) < |s.pcbs| && Hears(s, p, z)
    requires var a := s.pcbs[s.active];
             && b == a.(waitState := b.waitState, waitingFor := b.waitingFor, sigchildState := b.sigchildState)
             && (b.sigchildState == 0 ==> a.sigchildState == 0)
    requires p == s.active ==> b.sigchildState == 0
    ensures Hears(Spawned(s, b), p, z) && Fate(s, Spawned(s, b), p, z)
  {
    SpawnedInv(s, b);
    assert Live(s, s.active);
    hide QueueOk, Covered, ReapOk;
    SameFate(s, Spawned(s, b), p, z);
  }

  lemma CompletedTold(s: Sched, p: int, z: int)
    requires Settled(s) && s.pcbs[s.active].sigchildState == 0 && Hears(s, p, z)
    requires Reported(s) < |s.pcbs| && Reported(s) != s.active && |s.used| == |s.pcbs|
    ensures p == s.active ==> !Completed(s).used[z]
    ensures p != s.active ==> Hears(Completed(s), p, z) && Fate(s, Completed(s), p, z)
  {
    CompletedInv(s);
    ReportedIs(s);
    assert Live(s, s.active);
    hide QueueOk, Covered, ReapOk;
    if p != s.active {
      assert s.pcbs[p].pid != s.pcbs[s.active].pid;
      SameFate(s, Completed(s), p, z);
    }
  }

  // The news of p is overwritten by a fork of p, or by the death of another child, or p ends.
  ghost predicate Forgotten(s: Sched, c: Call, t: Sched, p: int) {
    (s.active == p && (c.Fork? || c.Exit?)) || ChildDies(s, t, p)
  }

  // Of a zombie that its parent p has heard of: what every call makes of it.  It is freed only
  // by p, by a wait or as a stub that dies; otherwise it is lost exactly when p forks or exits,
  // or another child of p dies, by an exit or as a stub; and in all other cases p still hears
  // of it.
  lemma HeardIff(s: Sched, c: Call, p: int, z: int)
    requires Settled(s) && Enabled(s, c) && Step(s, c).Some? && Hears(s, p, z)
    ensures var t := Step(s, c).value;
            && 0 <= z < |t.used|
            && (ReapedBy(s, c, p) ==> !t.used[z])
            && (!t.used[z] ==> ReapedBy(s, c, p) || (s.active != p && !Live(t, p)))
            && (Lost(t, z) <==> t.used[z] && Forgotten(s, c, t, p))
            && (t.used[z] && !Forgotten(s, c, t, p) ==> Hears(t, p, z))
  {
    SlotCount(s);
    if HandsOn(s, c) {
      HeardOn(s, c, p, z);
    } else {
      HeardStays(s, c, p, z);
    }
  }

  lemma HeardStays(s: Sched, c: Call, p: int, z: int)
    requires Settled(s) && Enabled(s, c) && Step(s, c).Some? && Hears(s, p, z) && !HandsOn(s, c)
    ensures var t := Step(s, c).value;
            && 0 <= z < |t.used|
            && (ReapedBy(s, c, p) ==> !t.used[z])
            && (!t.used[z] ==> ReapedBy(s, c, p))
            && (Lost(t, z) <==> t.used[z] && Forgotten(s, c, t, p))
            && (t.used[z] && !Forgotten(s, c, t, p) ==> Hears(t, p, z))
  {
    SlotCount(s);
    InRange(s, p, z);
    hide Inv, ChildDies, Told;
    if c.Fork? && s.active == p {
      ForkLoses(s, p, z);
      LostUsed(Step(s, c).value, z);
    } else if c.Fork? {
      SpawnedTold(s, ForkingParent(s), p, z);
      HeardNotLost(Step(s, c).value, p, z);
    } else if c.Exec? {
      SpawnedTold(s, ExecStub(s), p, z);
      HeardNotLost(Step(s, c).value, p, z);
    } else if c.Resume? {
      SettledReported(s);
      CompletedTold(s, p, z);
      if p != s.active {
        HeardNotLost(Step(s, c).value, p, z);
      }
    } else {
      HeardNotLost(s, p, z);
      assert !ChildDies(s, s, p) by { SameFate(s, s, p, z); }
    }
  }

  lemma LostUsed(s: Sched, z: int)
    requires Lost(s, z)
    ensures 0 <= z < |s.used| && s.used[z]
  {
  }

  lemma HeardNotLost(s: Sched, p: int, z: int)
    requires Hears(s, p, z)
    ensures 0 <= z < |s.used| && s.used[z] && !Lost(s, z)
  {
  }

  lemma HeardOn(s: Sched, c: Call, p: int, z: int)
    requires Settled(s) && Enabled(s, c) && Step(s, c).Some? && Hears(s, p, z) && HandsOn(s, c)
    ensures var t := Step(s, c).value;
            && 0 <= z < |t.used|
            && !ReapedBy(s, c, p)
            && (!t.used[z] ==> s.active != p && !Live(t, p))
            && (Lost(t, z) <==> t.used[z] && Forgotten(s, c, t, p))
            && (t.used[z] && !Forgotten(s, c, t, p) ==> Hears(t, p, z))
  {
    var t := Step(s, c).value;
    SlotCount(s);
    hide Inv, Step, Fate, AtSwitch, ChildDies, Told;
    if c.Exit? && (s.active == p || s.pcbs[s.active].ppid == s.pcbs[p].pid) {
      ExitForgets(s, c, p, z);
      LostUsed(t, z);
    } else {
      FateOn(s, c, p, z);
      FateDecides(s, t, p, z);
    }
  }

  lemma FateDecides(s: Sched, t: Sched, p: int, z: int)
    requires Fate(s, t, p, z)
    ensures 0 <= z < |t.used| && (!t.used[z] ==> !Live(t, p))
    ensures Lost(t, z) <==> t.used[z] && ChildDies(s, t, p)
    ensures t.used[z] && !ChildDies(s, t, p) ==> Hears(t, p, z)
  {
    if t.used[z] && !ChildDies(s, t, p) {
      HeardNotLost(t, p, z);
    }
  }

  lemma ExitForgets(s: Sched, c: Call, p: int, z: int)
    requires Settled(s) && Enabled(s, c) && Step(s, c).Some? && Hears(s, p, z) && c.Exit?
    requires s.active == p || s.pcbs[s.active].ppid == s.pcbs[p].pid
    ensures Lost(Step(s, c).value, z) && Forgotten(s, c, Step(s, c).value, p)
  {
    AtSwitchInv(s, c);
    if s.active == p {
      LeaverLoses(s, c.status, z);
      hide Inv, Dispatch, Told, ChildDies;
      DispatchLost(AtSwitch(s, c), z);
    } else {
      hide Inv, Dispatch, ChildDies;
      SecondExitLoses(s, c.status, p, z);
      ExitedChild(s, c, p);
    }
  }

  lemma FateOn(s: Sched, c: Call, p: int, z: int)
    requires Settled(s) && Enabled(s, c) && Step(s, c).Some? && Hears(s, p, z) && HandsOn(s, c)
    requires c.Exit? ==> s.active != p && s.pcbs[s.active].ppid != s.pcbs[p].pid
    ensures Fate(s, Step(s, c).value, p, z)
    ensures s.active == p ==> Live(Step(s, c).value, p)
  {
    AtSwitchInv(s, c);
    var u := AtSwitch(s, c);
    if c.Exit? {
      ExitTold(s, c.status, p, z);
    } else {
      SwitchTold(s, c, p, z);
    }
    if s.active == p {
      CallerStays(s, c);
    }
    hide Inv, Dispatch, Told, ChildDies, AtSwitch;
    DispatchTold(u, p, z);
    FateFrom(s, u, Step(s, c).value, p, z);
  }

  lemma CallerStays(s: Sched, c: Call)
    requires Settled(s) && Enabled(s, c) && Step(s, c).Some? && HandsOn(s, c) && !c.Exit?
    ensures Live(Step(s, c).value, s.active)
  {
    SettledLive(s);
    AtSwitchInv(s, c);
    StaysAtSwitch(s, c, s.active);
    hide Inv, AtSwitch;
    DispatchKeepsReady(AtSwitch(s, c), s.active);
  }

  lemma ExitedChild(s: Sched, c: Call, p: int)
    requires Settled(s) && Enabled(s, c) && Step(s, c).Some? && c.Exit? && 0 <= p < |s.pcbs|
    requires s.pcbs[s.active].ppid == s.pcbs[p].pid
    ensures ChildDies(s, Step(s, c).value, p)
  {
    AtSwitchInv(s, c);
    LeftLive(s, ToInt(c.status));
    DispatchOrder(AtSwitch(s, c));
    assert Live(s, s.active) && !Live(Step(s, c).value, s.active);
  }
}
