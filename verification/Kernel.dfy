/**
  The process table and the ring buffer as the source keeps them, with the system calls
  that change them in place: sys/task_manager.c and sys/syscall.c.
 */
module Kernel {
  import opened Integers
  import opened Lifecycle
  import opened Processes
  import opened Scheduling
  import opened Waits
  import opened Wrappers

  // The entries of the ring from start up to, not including, end.
  function RingOf(q: seq<int>, start: nat, end: nat): seq<int>
    requires start < |q| && end < |q|
  {
    if start <= end then q[start..end] else q[start..] + q[..end]
  }

  lemma RingPush(q: seq<int>, start: nat, end: nat, x: int)
    requires start < |q| && end < |q| && |RingOf(q, start, end)| < |q| - 1
    ensures (end + 1) % |q| != start && (end + 1) % |q| < |q|
    ensures RingOf(q[end := x], start, (end + 1) % |q|) == RingOf(q, start, end) + [x]
  {
    var e := (end + 1) % |q|;
    assert e == if end + 1 == |q| then 0 else end + 1;
    RingGrow(q, start, end, e, q[end := x]);
  }

  lemma RingGrow(q: seq<int>, start: nat, end: nat, e: nat, r: seq<int>)
    requires start < |q| && end < |q| && |RingOf(q, start, end)| < |q| - 1
    requires e == if end + 1 == |q| then 0 else end + 1
    requires |r| == |q| && forall i :: 0 <= i < |q| && i != end ==> r[i] == q[i]
    ensures e != start && RingOf(r, start, e) == RingOf(q, start, end) + [r[end]]
  {
    if start > end {
      assert r[start..] == q[start..];
      assert r[..e] == q[..end] + [r[end]];
    } else if e == 0 {
      assert r[start..] == q[start..end] + [r[end]];
      assert r[..0] == [];
    } else {
      assert r[start..e] == q[start..end] + [r[end]];
    }
  }

  lemma RingNotFull(q: seq<int>, start: nat, end: nat)
    requires start < |q| && end < |q| && |RingOf(q, start, end)| < |q| - 1
    ensures (end + 1) % |q| != start
  {
    RingPush(q, start, end, 0);
  }

  lemma RingPop(q: seq<int>, start: nat, end: nat)
    requires start < |q| && end < |q| && start != end
    ensures (start + 1) % |q| < |q|
    ensures RingOf(q, start, end) == [q[start]] + RingOf(q[start := -1], (start + 1) % |q|, end)
  {
    var s := (start + 1) % |q|;
    assert s == if start + 1 == |q| then 0 else start + 1;
    RingTail(q, start, s, end, q[start := -1]);
  }

  lemma RingTail(q: seq<int>, start: nat, s: nat, end: nat, r: seq<int>)
    requires start < |q| && end < |q| && start != end && s == if start + 1 == |q| then 0 else start + 1
    requires |r| == |q| && forall i :: 0 <= i < |q| && i != start ==> r[i] == q[i]
    ensures RingOf(q, start, end) == [q[start]] + RingOf(r, s, end)
  {
    if start < end {
      assert RingOf(q, start, end) == [q[start]] + r[s..end];
    } else if s == 0 {
      assert RingOf(q, start, end) == [q[start]] + r[..end];
    } else {
      assert q[start..] == [q[start]] + r[s..];
      assert q[..end] == r[..end];
    }
  }

  class ProcessTable {
    const slots: nat                 // PROC_SIZE
    var allPro: array<Pcb>
    var procDescriptor: array<bool>
    var procQ: array<int>
    var procStart: nat
    var procEnd: nat
    var active: int                  // NOBODY, or a slot
    var globalPid: nat

    ghost predicate Shaped()
      reads this
    {
      && allPro.Length == slots && procDescriptor.Length == slots && procQ.Length == slots + 1
      && procStart <= slots && procEnd <= slots
      && (active == NOBODY || 0 <= active < slots)
    }

    ghost function View(): Sched
      requires Shaped()
      reads this, allPro, procDescriptor, procQ
    {
      Sched(allPro[..], procDescriptor[..], RingOf(procQ[..], procStart, procEnd), active, globalPid)
    }

    // The parts that no call replaces.
    twostate predicate SameArrays()
      reads this
    {
      allPro == old(allPro) && procDescriptor == old(procDescriptor) && procQ == old(procQ)
    }

    // init_proc.
    constructor (size: nat)
      requires size > 0
      ensures Shaped() && slots == size && View() == Boot(size)
      ensures fresh(allPro) && fresh(procDescriptor) && fresh(procQ)
    {
      slots := size;
      allPro := new Pcb[size](i => if i == 0 then NewPcb(0, 1, 0) else CLEARED);
      procDescriptor := new bool[size](i => i == 0);
      procQ := new int[size + 1](i => -1);
      procStart, procEnd, active, globalPid := 1, 1, 0, 2;
      new;
      assert allPro[..] == Boot(size).pcbs;
      assert procDescriptor[..] == Boot(size).used;
    }

    // The slot is written at the end of the ring, and the end moves on, around the ring.
    method Enqueue(sno: int)
      requires Shaped() && |View().queue| < slots
      modifies this`procEnd, procQ
      ensures Shaped() && View() == Processes.Enqueue(old(View()), sno)
    {
      RingPush(procQ[..], procStart, procEnd, sno);
      procQ[procEnd] := sno;
      procEnd := (procEnd + 1) % (slots + 1);
    }

    // The front entry is read and blanked, and the front moves on.
    method Dequeue() returns (temp: int)
      requires Shaped() && procStart != procEnd
      modifies this`procStart, procQ
      ensures Shaped() && SameArrays()
      ensures old(View().queue) == [temp] + View().queue && View() == old(View()).(queue := View().queue)
    {
      RingPop(procQ[..], procStart, procEnd);
      temp := procQ[procStart];
      procQ[procStart] := -1;
      procStart := (procStart + 1) % (slots + 1);
    }

    // Those in front that are not live are dropped.
    method GetNextProc() returns (next: int)
      requires Shaped() && Indexed(View())
      modifies this`procStart, procQ
      ensures Shaped() && SameArrays() && next == NextOf(old(View())) && View() == AfterNext(old(View()))
    {
      while procStart != procEnd
        invariant Shaped() && SameArrays() && Indexed(View())
        invariant NextOf(View()) == NextOf(old(View())) && AfterNext(View()) == AfterNext(old(View()))
        decreases |View().queue|
      {
        ghost var s := View();
        var temp := Dequeue();
        assert temp in s.queue;
        NextStep(s, temp, View());
        var pcb := allPro[temp];
        if procDescriptor[pcb.sno] && (pcb.state == RUNNING || pcb.state == NEW_PROC) {
          return temp;
        }
      }
      return NOBODY;
    }

    // The search loops of exit, kill_proc and wait.
    method FindPid(pid: nat) returns (i: nat)
      requires Shaped()
      ensures i == FirstPid(allPro[..], pid)
    {
      i := 0;
      while i < slots && allPro[i].pid != pid
        invariant i <= slots && forall j :: 0 <= j < i ==> allPro[j].pid != pid
      {
        i := i + 1;
      }
      FirstPidAt(allPro[..], pid, i);
    }

    // The search loops of fork and exec.
    method FindFree() returns (i: nat)
      requires Shaped()
      ensures i == FirstFree(procDescriptor[..])
    {
      i := 0;
      while i < slots && procDescriptor[i]
        invariant i <= slots && forall j :: 0 <= j < i ==> procDescriptor[j]
      {
        i := i + 1;
      }
      FirstFreeAt(procDescriptor[..], i);
    }

    // The parent, if it is in the table, hears of the active process.
    method TellParent(status: int)
      requires Shaped() && active != NOBODY
      modifies allPro
      ensures View() == Signal(old(View()), old(allPro[active].ppid), status, old(allPro[active].pid))
    {
      var me := allPro[active];
      var i := FindPid(me.ppid);
      if i < slots {
        allPro[i] := allPro[i].(sigchildState := status, signallingChild := me.pid);
      }
      assert View().pcbs == Signal(old(View()), me.ppid, status, me.pid).pcbs;
    }

    method KillProc()
      requires Shaped() && Inv(View()) && Live(View(), active) && allPro[active].sigchildState == 0
      modifies this`active, allPro, procDescriptor
      ensures Shaped() && View() == Killed(old(View()))
    {
      ghost var s := View();
      KilledFinds(s);
      allPro[active] := allPro[active].(state := ZOMBIE);
      assert View() == Put(s, active, s.pcbs[active].(state := ZOMBIE));
      TellParent(0);
      assert View() == Leave(s, 0);
      var i := FindPid(allPro[active].signallingChild);
      allPro[i] := allPro[i].(state := DEAD);
      procDescriptor[allPro[i].sno] := false;
      active := NOBODY;
      assert View() == Killed(s);
    }

    // The caller of syscall_switch is queued, unless it waits: then it is in the queue.
    method QueueCaller()
      requires Shaped() && |AtEntry(View()).queue| <= slots
      modifies this`procEnd, procQ, allPro
      ensures Shaped() && SameArrays() && View().(active := NOBODY) == AtEntry(old(View()))
    {
      if active != NOBODY && allPro[active].waitState != WAITING_TO_LIVE {
        Enqueue(active);
        allPro[active] := allPro[active].(state := RUNNING);
      }
    }

    method RunNext()
      requires Shaped() && Idle(View().(active := NOBODY)) && View().queue != []
      modifies this`procStart, this`active, procQ
      ensures Shaped() && SameArrays() && View() == Popped(old(View().(active := NOBODY)))
    {
      NextIsFirst(View().(active := NOBODY), View());
      active := GetNextProc();
    }

    // A stub came up: it dies, or it goes back.
    method StubUp(ghost u: Sched)
      requires Shaped() && Idle(u) && u.queue != [] && View() == Popped(u)
      modifies this`procEnd, this`active, procQ, allPro, procDescriptor
      ensures Shaped() && View() == StubTurn(u)
    {
      PoppedInv(u);
      if IsPid(allPro[active].waitingFor, allPro[active].signallingChild) && allPro[active].sigchildState == 0 {
        KillProc();
      } else {
        PopRoom(u);
        Enqueue(active);
        active := NOBODY;
      }
    }

    // syscall_switch: stubs that come up are put back or killed, and the search goes on.
    method Switch()
      requires Shaped() && CanDispatch(AtEntry(View()))
      modifies this`procStart, this`procEnd, this`active, procQ, allPro, procDescriptor
      ensures Shaped() && View() == Dispatch(AtEntry(old(View())))
      decreases Rank(AtEntry(View()))
    {
      hide Idle, CanDispatch, Rank, StubTurn, RingOf, AtEntry, Dispatch, FirstReady;
      ghost var u := AtEntry(View());
      EntryRoom(View());
      QueueCaller();
      RunNext();
      NextAlive(u);
      if allPro[active].state != NEW_PROC && allPro[active].waitState == WAITING_TO_DIE {
        StubUp(u);
        Switch();
      }
    }

    method Yield()
      requires Shaped() && Settled(View()) && Enabled(View(), Call.Yield)
      modifies this`procStart, this`procEnd, this`active, procQ, allPro, procDescriptor
      ensures Shaped() && Step(old(View()), Call.Yield) == Some(View())
    {
      SwitchReady(View(), Call.Yield);
      Switch();
    }

    // syscall_exit, with its status as a 64-bit register.
    method Exit(status: nat)
      requires Shaped() && Settled(View()) && Enabled(View(), Call.Exit(status)) && Step(View(), Call.Exit(status)).Some?
      modifies this`procStart, this`procEnd, this`active, procQ, allPro, procDescriptor
      ensures Shaped() && Step(old(View()), Call.Exit(status)) == Some(View())
    {
      ghost var s := View();
      SlotCount(s);
      allPro[active] := allPro[active].(state := ZOMBIE);
      assert View() == Put(s, active, s.pcbs[active].(state := ZOMBIE));
      TellParent(ToInt(status));
      active := NOBODY;
      assert View() == Left(s, ToInt(status));
      SwitchReady(s, Call.Exit(status));
      Switch();
    }

    // The process effects of syscall_fork. Its test of the ring never stops the machine.
    method Fork() returns (child: nat)
      requires Shaped() && Settled(View()) && Enabled(View(), Call.Fork) && Step(View(), Call.Fork).Some?
      modifies this`procEnd, this`active, this`globalPid, procQ, allPro, procDescriptor
      ensures Shaped() && Step(old(View()), Call.Fork) == Some(View())
      ensures child == old(globalPid) == allPro[active].pid
    {
      hide Inv, Step, RingOf;
      ghost var s := View();
      SpawnReady(s, Call.Fork);
      RingNotFull(procQ[..], procStart, procEnd);
      assert (procEnd + 1) % (slots + 1) != procStart;
      var i := FindFree();
      child := CreateProcess(i);
      allPro[active] := allPro[active].(sigchildState := allPro[i].state, state := RUNNING);
      Enqueue(active);
      active := i;
      assert View() == Spawned(s, ForkingParent(s));
    }

    // The process effects of syscall_exec.
    method Exec() returns (image: nat)
      requires Shaped() && Settled(View()) && Enabled(View(), Call.Exec) && Step(View(), Call.Exec).Some?
      modifies this`procEnd, this`active, this`globalPid, procQ, allPro, procDescriptor
      ensures Shaped() && Step(old(View()), Call.Exec) == Some(View())
      ensures image == old(globalPid) == allPro[active].pid
    {
      hide Inv, Step, RingOf, ToInt;
      ghost var s := View();
      SpawnReady(s, Call.Exec);
      var i := FindFree();
      image := CreateProcess(i);
      allPro[active] := allPro[active].(waitState := WAITING_TO_DIE, waitingFor := ToInt(image));
      Enqueue(active);
      active := i;
      assert View() == Spawned(s, ExecStub(s));
    }

    // create_new_process, and the fields its callers set at once.
    method CreateProcess(i: nat) returns (pid: nat)
      requires Shaped() && i < slots && active != NOBODY && active != i
      modifies this`globalPid, allPro, procDescriptor
      ensures Shaped() && pid == old(globalPid)
      ensures var s := old(View());
              View() == s.(pcbs := s.pcbs[i := NewPcb(i, pid, s.pcbs[s.active].pid)], used := s.used[i := true], nextPid := pid + 1)
    {
      pid := globalPid;
      globalPid := globalPid + 1;
      allPro[i] := Pcb(i, pid, allPro[active].pid, 0, 0, 0, DEAD, RUNNING);
      procDescriptor[i] := true;
    }

    method CheckLiveChild(target: nat) returns (found: bool)
      requires Shaped() && active != NOBODY
      ensures found == HasChild(View(), target)
      ensures found <==> exists i :: 0 <= i < slots && procDescriptor[i] && allPro[i].ppid == allPro[active].pid
                           && (ToInt(target) == -1 || allPro[i].pid == ToWord(ToInt(target)))
    {
      var id := ToInt(target);
      var i := 0;
      while i < slots
        invariant i <= slots
        invariant forall j :: 0 <= j < i ==>
          !(procDescriptor[j] && allPro[j].ppid == allPro[active].pid && (id == -1 || IsPid(id, allPro[j].pid)))
      {
        if procDescriptor[i] && allPro[i].ppid == allPro[active].pid && (id == -1 || IsPid(id, allPro[i].pid)) {
          assert View().used[i] && View().pcbs[i] == allPro[i];
          return true;
        }
        i := i + 1;
      }
      return false;
    }

    // syscall_wait up to the first hand-over: without such a child it returns 0 at once.
    method Wait(target: nat) returns (r: Option<nat>)
      requires Shaped() && Settled(View()) && Enabled(View(), Call.Wait(target))
      modifies this`procStart, this`procEnd, this`active, procQ, allPro, procDescriptor
      ensures Shaped() && Step(old(View()), Call.Wait(target)) == Some(View())
      ensures var s := old(View());
              && |s.used| == |s.pcbs| && 0 <= s.active < |s.pcbs|
              && var admitted := exists i :: 0 <= i < |s.pcbs| && s.used[i] && s.pcbs[i].ppid == s.pcbs[s.active].pid
                                   && (ToInt(target) == -1 || s.pcbs[i].pid == ToWord(ToInt(target)));
              && r == (if admitted then None else Some(0))
              && (!admitted ==> View() == s)
              && (admitted ==> View().pcbs[s.active].waitState == WAITING_TO_LIVE
                               && View().pcbs[s.active].waitingFor == ToInt(target))
    {
      hide Inv, Step, RingOf, Dispatch, CanDispatch, HasChild;
      WaitBlocksIff(View(), target);
      r := Some(0);
      var found := CheckLiveChild(target);
      if found {
        r := None;
        ghost var s := View();
        allPro[active] := allPro[active].(waitState := WAITING_TO_LIVE, waitingFor := ToInt(target));
        assert View() == Waiting(s, target);
        SwitchReady(s, Call.Wait(target));
        QueueHasRoom(s);
        Enqueue(active);
        Switch();
      }
    }

    // The loop of syscall_wait when its caller comes up again: it returns, or waits on.
    method Resume() returns (r: Option<nat>)
      requires Shaped() && Settled(View()) && Enabled(View(), Call.Resume)
      modifies this`procStart, this`procEnd, this`active, procQ, allPro, procDescriptor
      ensures Shaped() && Step(old(View()), Call.Resume) == Some(View())
      ensures r == if Satisfied(old(allPro[active])) then Some(old(allPro[active].signallingChild)) else None
      ensures old(-0x8000_0000 <= allPro[active].waitingFor < 0x8000_0000) ==>
        var b, s, p := old(allPro[active]), old(View()), old(active);
        var heard := b.sigchildState == 0 && (b.waitingFor == -1 || b.signallingChild == ToWord(b.waitingFor));
        && r == (if heard then Some(b.signallingChild) else None)
        && (allPro[p].waitState != WAITING_TO_LIVE <==> heard)
        && (heard ==> active == p && JustFreed(s, View(), b.pid, b.signallingChild))
        && (!heard ==> Kept(s, View(), p))
    {
      hide Inv, Step, RingOf, Dispatch, CanDispatch;
      ghost var s := View();
      if -0x8000_0000 <= allPro[active].waitingFor < 0x8000_0000 && Step(s, Call.Resume).Some? {
        RoundIff(s, allPro[active].waitingFor);
      }
      FinishReady(s);
      var me := allPro[active];
      if me.sigchildState == 0 && (me.waitingFor == -1 || IsPid(me.waitingFor, me.signallingChild)) {
        FinishWait();
        r := Some(me.signallingChild);
      } else {
        r := None;
        SwitchReady(s, Call.Resume);
        Enqueue(active);
        Switch();
      }
    }

    // The end of syscall_wait: the child's slot is free, its entry zero.
    method FinishWait()
      requires Shaped() && 0 <= active && |View().used| == |View().pcbs|
      requires Reported(View()) < slots && Reported(View()) != active && allPro[Reported(View())].sno == Reported(View())
      modifies allPro, procDescriptor
      ensures View() == Completed(old(View()))
    {
      ghost var s := View();
      allPro[active] := allPro[active].(waitState := 0);
      var i := FindChild(s, allPro[active].signallingChild);
      allPro[i] := allPro[i].(state := DEAD);
      procDescriptor[allPro[i].sno] := false;
      allPro[i] := CLEARED;
      allPro[active] := allPro[active].(sigchildState := DEAD);
      assert View() == Completed(s);
    }

    // The search at the end of syscall_wait finds what it found before the caller's entry changed.
    method FindChild(ghost s: Sched, pid: nat) returns (i: nat)
      requires Shaped() && |s.pcbs| == slots && forall j :: 0 <= j < slots ==> allPro[j].pid == s.pcbs[j].pid
      ensures i == FirstPid(s.pcbs, pid)
    {
      i := FindPid(pid);
      FirstPidAt(s.pcbs, pid, i);
    }
  }

  lemma SpawnReady(s: Sched, c: Call)
    requires Settled(s) && Enabled(s, c) && (c.Fork? || c.Exec?) && Step(s, c).Some?
    ensures |s.used| == |s.pcbs| && 0 <= s.active < |s.pcbs| && s.active != FirstFree(s.used) < |s.pcbs|
    ensures |s.queue| < |s.pcbs|
    ensures Step(s, c) == Some(Spawned(s, if c.Fork? then ForkingParent(s) else ExecStub(s)))
  {
    SlotCount(s);
    assert Live(s, s.active);
    QueueHasRoom(s);
  }

  lemma FinishReady(s: Sched)
    requires Settled(s) && Enabled(s, Call.Resume)
    ensures 0 <= s.active < |s.pcbs| && |s.queue| < |s.pcbs|
    ensures Satisfied(s.pcbs[s.active]) ==>
              && |s.used| == |s.pcbs| && Reported(s) < |s.pcbs| && Reported(s) != s.active
              && s.pcbs[Reported(s)].sno == Reported(s) && Step(s, Call.Resume) == Some(Completed(s))
  {
    QueueHasRoom(s);
    SlotCount(s);
    if Satisfied(s.pcbs[s.active]) {
      SettledReported(s);
    }
  }

  // The state that each call leaves to syscall_switch, and that somebody can run then.
  lemma SwitchReady(s: Sched, c: Call)
    requires Settled(s) && Enabled(s, c) && HandsOn(s, c) && (c.Exit? ==> Step(s, c).Some?)
    ensures CanDispatch(AtSwitch(s, c)) && Step(s, c) == Some(Dispatch(AtSwitch(s, c)))
    ensures AtSwitch(s, c) == match c {
      case Yield => AtEntry(s)
      case Exit(status) => AtEntry(Left(s, ToInt(status)))
      case Wait(target) => AtEntry(Processes.Enqueue(Waiting(s, target), s.active))
      case _ => AtEntry(Processes.Enqueue(s, s.active))
    }
  {
    AtSwitchInv(s, c);
    StepIff(s, c);
    assert Live(s, s.active);
    assert s.pcbs[s.active := s.pcbs[s.active]] == s.pcbs;
    assert s.pcbs[s.active].(state := RUNNING) == s.pcbs[s.active];
  }

  ghost predicate CanDispatch(s: Sched) {
    Idle(s) && FirstReady(s.pcbs, s.queue) < |s.queue|
  }

  ghost function Rank(s: Sched): nat {
    FirstReady(s.pcbs, s.queue)
  }

  // What comes up is live; when it is a stub, the rest of the search is nearer its end.
  lemma NextAlive(s: Sched)
    requires CanDispatch(s)
    ensures Idle(s) && s.queue != [] && 0 <= s.queue[0] < |s.pcbs| && s.pcbs[s.queue[0]].state == RUNNING
    ensures if Stub(s, s.queue[0])
            then var t := StubTurn(s); AtEntry(t) == t && CanDispatch(t) && Rank(t) < Rank(s) && Dispatch(s) == Dispatch(t)
            else Dispatch(s) == Popped(s)
  {
    QueuedLive(s, 0);
    if Stub(s, s.queue[0]) {
      StubTurnReady(s);
    }
  }

  // The state at the search for the next process.
  function AtEntry(s: Sched): Sched {
    if s.active != NOBODY && 0 <= s.active < |s.pcbs| && s.pcbs[s.active].waitState != WAITING_TO_LIVE
    then PutBack(Put(s, s.active, s.pcbs[s.active].(state := RUNNING)))
    else s.(active := NOBODY)
  }

  lemma IdleRoom(s: Sched)
    requires Idle(s)
    ensures |s.queue| <= |s.pcbs|
  {
    DistinctBound(s.queue, |s.pcbs|);
  }

  lemma EntryRoom(s: Sched)
    requires CanDispatch(AtEntry(s))
    ensures AtEntry(s).active == NOBODY && AtEntry(s).queue != [] && |AtEntry(s).queue| <= |s.pcbs| && Idle(AtEntry(s))
  {
    IdleRoom(AtEntry(s));
  }

  lemma PopRoom(s: Sched)
    requires Idle(s) && s.queue != []
    ensures |s.queue[1..]| < |s.pcbs|
  {
    IdleRoom(s);
  }

  // Nothing that is queued is dropped: the front is live.
  lemma NextIsFirst(s: Sched, t: Sched)
    requires Idle(s) && s.queue != [] && s == t.(active := NOBODY)
    ensures Indexed(t) && NextOf(t) == s.queue[0] && AfterNext(t) == t.(queue := s.queue[1..])
  {
    QueuedLive(s, 0);
    forall x | x in s.queue ensures 0 <= x < |s.pcbs| && 0 <= s.pcbs[x].sno < |s.used| {
      var k :| 0 <= k < |s.queue| && s.queue[k] == x;
      QueuedLive(s, k);
    }
    assert Takes(t, t.queue[0]);
  }

  lemma FirstPidAt(pcbs: seq<Pcb>, pid: nat, i: nat)
    requires i <= |pcbs| && (i < |pcbs| ==> pcbs[i].pid == pid) && forall j :: 0 <= j < i ==> pcbs[j].pid != pid
    ensures i == FirstPid(pcbs, pid)
  {
  }

  lemma FirstFreeAt(used: seq<bool>, i: nat)
    requires i <= |used| && (i < |used| ==> !used[i]) && forall j :: 0 <= j < i ==> used[j]
    ensures i == FirstFree(used)
  {
  }

  // The queue holds slots, and they know their number.
  predicate Indexed(s: Sched) {
    && |s.used| == |s.pcbs|
    && forall x :: x in s.queue ==> 0 <= x < |s.pcbs| && 0 <= s.pcbs[x].sno < |s.used|
  }

  function NextOf(s: Sched): int {
    var k := FirstLive(s, s.queue);
    if k == |s.queue| then NOBODY else s.queue[k]
  }

  function AfterNext(s: Sched): Sched {
    var k := FirstLive(s, s.queue);
    s.(queue := if k == |s.queue| then [] else s.queue[k + 1..])
  }

  lemma NextStep(s: Sched, x: int, t: Sched)
    requires Indexed(s) && t == s.(queue := t.queue) && s.queue == [x] + t.queue
    ensures Indexed(t) && 0 <= x < |s.pcbs|
    ensures if Takes(s, x) then NextOf(s) == x && AfterNext(s) == t else NextOf(s) == NextOf(t) && AfterNext(s) == AfterNext(t)
  {
    assert s.queue[0] == x && s.queue[1..] == t.queue && x in s.queue;
    forall y | y in t.queue ensures y in s.queue {
    }
    FirstLiveSame(s, t, t.queue);
  }

  lemma FirstLiveSame(s: Sched, t: Sched, q: seq<int>)
    requires t == s.(queue := t.queue)
    ensures FirstLive(s, q) == FirstLive(t, q)
  {
  }

  // How many entries get_nextproc drops.
  function FirstLive(s: Sched, q: seq<int>): (k: nat)
    ensures k <= |q|
  {
    if q == [] then 0
    else if Takes(s, q[0]) then 0
    else 1 + FirstLive(s, q[1..])
  }

  predicate Takes(s: Sched, i: int) {
    && 0 <= i < |s.pcbs| && 0 <= s.pcbs[i].sno < |s.used| && s.used[s.pcbs[i].sno]
    && (s.pcbs[i].state == RUNNING || s.pcbs[i].state == NEW_PROC)
  }
}
