/**
  The system calls fork, exec, switch, exit and wait as steps, and what every run keeps.
 */
module Lifecycle {
  import opened Integers
  import opened Processes
  import opened Scheduling
  import opened Wrappers

  // ---------------------------------------------------------------------- steps

  // What create_new_process and its caller put into a slot.
  function NewPcb(slot: nat, pid: nat, ppid: nat): Pcb {
    Pcb(slot, pid, ppid, 0, 0, 0, DEAD, RUNNING)
  }

  // A child is made and runs; the caller waits in the queue, its own entry changed to b.
  function Spawned(s: Sched, b: Pcb): Sched
    requires 0 <= s.active < |s.pcbs| == |s.used| && FirstFree(s.used) < |s.used|
  {
    var i := FirstFree(s.used);
    s.(pcbs := s.pcbs[i := NewPcb(i, s.nextPid, s.pcbs[s.active].pid)][s.active := b],
       used := s.used[i := true],
       queue := s.queue + [s.active],
       active := i,
       nextPid := s.nextPid + 1)
  }

  function ForkingParent(s: Sched): Pcb
    requires 0 <= s.active < |s.pcbs|
  {
    s.pcbs[s.active].(sigchildState := RUNNING, state := RUNNING)
  }

  function ExecStub(s: Sched): Pcb
    requires 0 <= s.active < |s.pcbs|
  {
    s.pcbs[s.active].(waitState := WAITING_TO_DIE, waitingFor := ToInt(s.nextPid))
  }

  function Waiting(s: Sched, target: nat): Sched
    requires 0 <= s.active < |s.pcbs|
  {
    Put(s, s.active, s.pcbs[s.active].(waitState := WAITING_TO_LIVE, waitingFor := ToInt(target)))
  }

  // The test at the end of each round of the loop in syscall_wait.
  predicate Satisfied(b: Pcb) {
    b.sigchildState == 0 && (b.waitingFor == -1 || IsPid(b.waitingFor, b.signallingChild))
  }

  // The child's slot is freed and its entry zeroed; the caller goes on.
  function Completed(s: Sched): Sched
    requires 0 <= s.active < |s.pcbs| && |s.used| == |s.pcbs|
    requires Reported(s) < |s.pcbs| && Reported(s) != s.active
  {
    var c := Reported(s);
    s.(pcbs := s.pcbs[c := CLEARED][s.active := s.pcbs[s.active].(waitState := 0, sigchildState := DEAD)],
       used := s.used[c := false])
  }

  ghost predicate Enabled(s: Sched, c: Call)
    requires Settled(s)
  {
    c.Resume? <==> s.pcbs[s.active].waitState == WAITING_TO_LIVE
  }

  // Whether the call hands the processor on.
  ghost predicate HandsOn(s: Sched, c: Call)
    requires Settled(s)
  {
    match c
    case Fork => false
    case Exec => false
    case Yield => true
    case Exit(_) => true
    case Wait(target) => HasChild(s, target)
    case Resume => !Satisfied(s.pcbs[s.active])
  }

  // The state at the call of syscall_switch.
  ghost function AtSwitch(s: Sched, c: Call): Sched
    requires Settled(s) && HandsOn(s, c)
  {
    match c
    case Exit(status) => Left(s, ToInt(status))
    case Wait(target) => PutBack(Waiting(s, target))
    case _ => PutBack(s)
  }

  // None: the search for a free slot runs off the table, or nobody is left to run.
  ghost function Step(s: Sched, c: Call): (r: Option<Sched>)
    requires Settled(s) && Enabled(s, c)
  {
    hide Inv;
    if HandsOn(s, c) then
      AtSwitchInv(s, c);
      var u := AtSwitch(s, c);
      if FirstReady(u.pcbs, u.queue) == |u.queue| then None else Some(Dispatch(u))
    else if c.Fork? || c.Exec? then
      SlotCount(s);
      if FirstFree(s.used) == |s.pcbs| then None
      else Some(Spawned(s, if c.Fork? then ForkingParent(s) else ExecStub(s)))
    else if c.Resume? then
      SettledReported(s);
      Some(Completed(s))
    else Some(s)
  }

  lemma SlotCount(s: Sched)
    requires Settled(s)
    ensures |s.used| == |s.pcbs| && 0 <= s.active < |s.pcbs| && s.pcbs[s.active].state == RUNNING
  {
  }

  lemma SettledReported(s: Sched)
    requires Settled(s) && s.pcbs[s.active].sigchildState == 0
    ensures Reported(s) < |s.pcbs| && Reported(s) != s.active && Told(s, s.active, Reported(s))
  {
    ReportedIs(s);
  }

  // ---------------------------------------------------------- what a step keeps

  lemma WaitingInv(s: Sched, target: nat)
    requires Settled(s)
    ensures Inv(Waiting(s, target)) && Live(Waiting(s, target), s.active)
  {
    var t := Waiting(s, target);
    assert forall i {:trigger Live(t, i)} :: Live(t, i) <==> Live(s, i);
    assert SlotsOk(t) && PidsOk(t) && QueueOk(t) && Covered(t) by { hide ReapOk; }
    forall p | Live(t, p) && t.pcbs[p].sigchildState == 0 ensures exists c :: Told(t, p, c) {
      assert Live(s, p);
      var c :| Told(s, p, c);
      assert Told(t, p, c);
    }
  }

  lemma AtSwitchInv(s: Sched, c: Call)
    requires Settled(s) && HandsOn(s, c)
    ensures Idle(AtSwitch(s, c)) && |AtSwitch(s, c).pcbs| == |s.pcbs| && AtSwitch(s, c).nextPid == s.nextPid
    ensures forall i {:trigger Live(AtSwitch(s, c), i)} :: Live(AtSwitch(s, c), i) ==> Live(s, i)
  {
    hide Covered, ReapOk, PidsOk;
    match c
    case Exit(status) => LeftInv(s, ToInt(status)); LeftLive(s, ToInt(status)); LeaveShape(s, ToInt(status));
    case Wait(target) => WaitingInv(s, target); PutBackInv(Waiting(s, target));
    case Yield => PutBackInv(s);
    case Resume => PutBackInv(s);
  }

  lemma SpawnedInv(s: Sched, b: Pcb)
    requires Settled(s) && FirstFree(s.used) < |s.pcbs|
    requires var a := s.pcbs[s.active];
             && b == a.(waitState := b.waitState, waitingFor := b.waitingFor, sigchildState := b.sigchildState)
             && (b.sigchildState == 0 ==> a.sigchildState == 0)
    ensures Settled(Spawned(s, b))
    ensures forall p {:trigger Live(Spawned(s, b), p)} :: Live(Spawned(s, b), p) <==> Live(s, p) || p == FirstFree(s.used)
  {
    var t, i := Spawned(s, b), FirstFree(s.used);
    assert forall p {:trigger Live(t, p)} :: Live(t, p) <==> Live(s, p) || p == i;
    SpawnedSlots(s, b);
    SpawnedQueue(s, b);
    hide SlotsOk, PidsOk, QueueOk, Covered;
    forall p | Live(t, p) && t.pcbs[p].sigchildState == 0 ensures exists c :: Told(t, p, c) {
      assert Live(s, p);
      var c :| Told(s, p, c);
      assert Told(t, p, c);
    }
  }

  lemma SpawnedSlots(s: Sched, b: Pcb)
    requires Settled(s) && FirstFree(s.used) < |s.pcbs|
    requires var a := s.pcbs[s.active];
             b == a.(waitState := b.waitState, waitingFor := b.waitingFor, sigchildState := b.sigchildState)
    ensures SlotsOk(Spawned(s, b)) && PidsOk(Spawned(s, b))
  {
    assert Live(s, s.active);
    hide ReapOk, Covered, QueueOk;
  }

  lemma SpawnedQueue(s: Sched, b: Pcb)
    requires Settled(s) && FirstFree(s.used) < |s.pcbs|
    requires var t := Spawned(s, b); forall p {:trigger Live(t, p)} :: Live(t, p) <==> Live(s, p) || p == FirstFree(s.used)
    ensures QueueOk(Spawned(s, b)) && Covered(Spawned(s, b))
  {
    hide ReapOk, PidsOk;
    var t, i := Spawned(s, b), FirstFree(s.used);
    assert !Live(s, i) && i != s.active;
    hide Live;
    assert forall k :: 0 <= k < |t.queue| ==> Live(s, t.queue[k]);
    assert forall x :: x in s.queue ==> x in t.queue;
    assert s.active == t.queue[|s.queue|];
  }

  lemma CompletedInv(s: Sched)
    requires Settled(s) && s.pcbs[s.active].sigchildState == 0
    requires Reported(s) < |s.pcbs| && Reported(s) != s.active && |s.used| == |s.pcbs|
    ensures Settled(Completed(s))
    ensures forall p {:trigger Live(Completed(s), p)} :: Live(Completed(s), p) <==> Live(s, p)
  {
    ReportedIs(s);
    var t, c := Completed(s), Reported(s);
    assert forall p {:trigger Live(t, p)} :: Live(t, p) <==> Live(s, p);
    assert SlotsOk(t) && PidsOk(t) by { hide ReapOk, Covered, QueueOk; assert Live(s, s.active); }
    assert QueueOk(t) && Covered(t) by { hide ReapOk, PidsOk, Told; }
    forall p | Live(t, p) && t.pcbs[p].sigchildState == 0 ensures exists d :: Told(t, p, d) {
      assert Live(s, p) && p != s.active;
      var d :| Told(s, p, d);
      assert s.pcbs[p].pid != s.pcbs[s.active].pid;
      assert Told(t, p, d);
    }
  }

  // Queued slots are distinct, live and RUNNING, the active process is not queued, no live
  // process is lost, and a process with news of a child finds exactly one zombie: after
  // every call.
  lemma StepInv(s: Sched, c: Call)
    requires Settled(s) && Enabled(s, c) && Step(s, c).Some?
    ensures Settled(Step(s, c).value) && |Step(s, c).value.pcbs| == |s.pcbs|
  {
    hide Inv;
    SlotCount(s);
    if HandsOn(s, c) {
      AtSwitchInv(s, c);
      DispatchOrder(AtSwitch(s, c));
    } else if c.Fork? {
      SpawnedInv(s, ForkingParent(s));
    } else if c.Exec? {
      SpawnedInv(s, ExecStub(s));
    } else if c.Resume? {
      SettledReported(s);
      CompletedInv(s);
    }
  }

  // ------------------------------------------------------------------- whole runs

  ghost predicate RunsTo(s: Sched, calls: seq<Call>, t: Sched)
    decreases |calls|
  {
    if calls == [] then s == t
    else Settled(s) && Enabled(s, calls[0]) && Step(s, calls[0]).Some? && RunsTo(Step(s, calls[0]).value, calls[1..], t)
  }

  // init_proc: one process runs, in slot 0, with process id 1.
  function Boot(slots: nat): Sched
    requires slots > 0
  {
    Sched(seq(slots, i => if i == 0 then NewPcb(0, 1, 0) else CLEARED), seq(slots, i => i == 0), [], 0, 2)
  }

  lemma BootSettled(slots: nat)
    requires slots > 0
    ensures Settled(Boot(slots)) && InitAlive(Boot(slots))
  {
  }

  lemma {:induction false} RunSettled(s: Sched, calls: seq<Call>, t: Sched)
    requires Settled(s) && RunsTo(s, calls, t)
    ensures Settled(t) && |t.pcbs| == |s.pcbs|
    decreases |calls|
  {
    if calls != [] {
      StepInv(s, calls[0]);
      RunSettled(Step(s, calls[0]).value, calls[1..], t);
    }
  }

  lemma {:induction false} DistinctBound(q: seq<int>, n: nat)
    requires forall k :: 0 <= k < |q| ==> 0 <= q[k] < n
    requires forall k, m :: 0 <= k < m < |q| ==> q[k] != q[m]
    ensures |q| <= n
    decreases n
  {
    assert |q| > 0 ==> 0 <= q[0] < n;
    if n == 0 {
    } else if n - 1 in q {
      var k :| 0 <= k < |q| && q[k] == n - 1;
      DistinctBound(q[..k] + q[k + 1..], n - 1);
    } else {
      DistinctBound(q, n - 1);
    }
  }

  // A ring of one more entry than there are slots has room for the active process too:
  // the fullness check of fork never fires, and the enqueueings without a check are safe.
  lemma QueueHasRoom(s: Sched)
    requires Settled(s)
    ensures |s.queue| < |s.pcbs|
  {
    var q := s.queue + [s.active];
    assert forall k {:trigger q[k]} :: 0 <= k < |q| ==> 0 <= q[k] < |s.pcbs| by {
      assert Live(s, s.active);
    }
    DistinctBound(q, |s.pcbs|);
  }

  // ------------------------------------------------------- when the machine goes on

  lemma ReadyExists(s: Sched, k: nat)
    requires k < |s.queue| && !Stub(s, s.queue[k])
    ensures FirstReady(s.pcbs, s.queue) <= k
  {
  }

  // A call that puts its caller back always finds somebody to run; an exit does exactly
  // when somebody who is not a stub is queued; and fork and exec need a free slot.
  lemma StepIff(s: Sched, c: Call)
    requires Settled(s) && Enabled(s, c)
    ensures Step(s, c).Some? <==>
              match c {
                case Exit(_) => exists k :: 0 <= k < |s.queue| && !Stub(s, s.queue[k])
                case Fork => exists i :: 0 <= i < |s.used| && !s.used[i]
                case Exec => exists i :: 0 <= i < |s.used| && !s.used[i]
                case _ => true
              }
  {
    hide Inv;
    SlotCount(s);
    if c.Exit? {
      var u := AtSwitch(s, c);
      AtSwitchInv(s, c);
      ExitQueue(s, c.status);
    } else if HandsOn(s, c) {
      var u := AtSwitch(s, c);
      ReadyExists(u, |s.queue|);
    } else if c.Fork? || c.Exec? {
      var i := FirstFree(s.used);
      if i < |s.used| {
        assert !s.used[i];
      }
    }
  }

  lemma ExitQueue(s: Sched, status: nat)
    requires Settled(s)
    ensures var u := Left(s, ToInt(status));
            (exists k :: 0 <= k < |s.queue| && !Stub(s, s.queue[k])) <==> FirstReady(u.pcbs, u.queue) < |u.queue|
  {
    LeaveShape(s, ToInt(status));
    var u := Left(s, ToInt(status));
    assert u.queue == s.queue;
    assert forall k :: 0 <= k < |s.queue| ==> (Stub(u, s.queue[k]) <==> Stub(s, s.queue[k])) by { hide ReapOk, Covered, PidsOk; }
    var f := FirstReady(u.pcbs, u.queue);
    if f < |u.queue| {
      assert !Stub(s, s.queue[f]);
    }
  }

  // The first process is alive and has not called exec.
  ghost predicate InitAlive(s: Sched) {
    Live(s, 0) && !Stub(s, 0)
  }

  lemma InitQueued(s: Sched)
    requires Settled(s) && InitAlive(s) && s.active != 0
    ensures exists k :: 0 <= k < |s.queue| && !Stub(s, s.queue[k])
  {
    assert 0 in s.queue;
    var k :| 0 <= k < |s.queue| && s.queue[k] == 0;
  }

  // As long as the first process neither exits nor calls exec, every call but a fork or an
  // exec with a full table goes on, and the first process stays.
  lemma InitKeepsGoing(s: Sched, c: Call)
    requires Settled(s) && InitAlive(s) && Enabled(s, c)
    requires s.active == 0 ==> !c.Exit? && !c.Exec?
    ensures Step(s, c).None? ==> (c.Fork? || c.Exec?) && forall i :: 0 <= i < |s.used| ==> s.used[i]
    ensures Step(s, c).Some? ==> InitAlive(Step(s, c).value)
  {
    StepIff(s, c);
    if s.active != 0 {
      InitQueued(s);
    }
    if Step(s, c).Some? {
      InitStays(s, c);
    }
  }

  lemma InitStays(s: Sched, c: Call)
    requires Settled(s) && InitAlive(s) && Enabled(s, c) && Step(s, c).Some?
    requires s.active == 0 ==> !c.Exit? && !c.Exec?
    ensures InitAlive(Step(s, c).value)
  {
    hide Inv;
    SlotCount(s);
    if HandsOn(s, c) {
      AtSwitchInv(s, c);
      StaysAtSwitch(s, c, 0);
      DispatchKeepsReady(AtSwitch(s, c), 0);
    } else if c.Fork? {
      SpawnedInv(s, ForkingParent(s));
    } else if c.Exec? {
      SpawnedInv(s, ExecStub(s));
    } else if c.Resume? {
      SettledReported(s);
      CompletedInv(s);
    }
  }

  // The call itself neither ends another process nor makes it a stub.
  lemma StaysAtSwitch(s: Sched, c: Call, x: int)
    requires Settled(s) && HandsOn(s, c) && Live(s, x) && !Stub(s, x) && (x == s.active ==> !c.Exit?)
    ensures Live(AtSwitch(s, c), x) && !Stub(AtSwitch(s, c), x)
  {
    hide Covered, ReapOk, PidsOk;
    if c.Exit? {
      LeaveShape(s, ToInt(c.status));
      LeftLive(s, ToInt(c.status));
    }
  }

  // Who is not a stub outlives the choice of the next process: it is chosen, or it comes
  // closer to the front.
  lemma DispatchKeepsReady(s: Sched, x: int)
    requires Idle(s) && FirstReady(s.pcbs, s.queue) < |s.queue| && Live(s, x) && !Stub(s, x)
    ensures Live(Dispatch(s), x) && !Stub(Dispatch(s), x)
  {
    DispatchOrder(s);
    var t, k := Dispatch(s), FirstReady(s.pcbs, s.queue);
    assert x in s.queue;
    var m :| 0 <= m < |s.queue| && s.queue[m] == x;
    DispatchAdvances(s, m);
  }

  lemma DispatchAdvances(s: Sched, m: nat)
    requires Idle(s) && FirstReady(s.pcbs, s.queue) < |s.queue| && m < |s.queue| && !Stub(s, s.queue[m])
    ensures var t, k := Dispatch(s), FirstReady(s.pcbs, s.queue);
            && Live(t, s.queue[m]) && !Stub(t, s.queue[m]) && k <= m
            && (if m == k then t.active == s.queue[m] else m - k - 1 < |t.queue| && t.queue[m - k - 1] == s.queue[m])
  {
    QueuedLive(s, m);
    var t, k := Dispatch(s), FirstReady(s.pcbs, s.queue);
    LiveRange(s, s.queue[m]);
    ReadyExists(s, m);
    hide Inv, Dispatch, Live, FirstReady, Survivors;
    DispatchOrder(s);
    if m > k {
      Behind(s.queue, k, Survivors(s.queue[..k], t), m);
      QueuedLive(t, m - k - 1);
    } else {
      SettledLive(t);
    }
    assert t.pcbs[s.queue[m]].waitState == s.pcbs[s.queue[m]].waitState;
  }

  lemma Behind(q: seq<int>, k: nat, rest: seq<int>, m: nat)
    requires k < m < |q|
    ensures var n := q[k + 1..] + rest; m - k - 1 < |n| && n[m - k - 1] == q[m]
  {
  }

  lemma LiveRange(s: Sched, i: int)
    requires Live(s, i)
    ensures 0 <= i < |s.pcbs|
  {
  }

  lemma SettledLive(s: Sched)
    requires Settled(s)
    ensures Live(s, s.active) && !Stub(s, s.active)
  {
  }

  // ------------------------------------------------------------------- fairness

  // How many calls of a run hand the processor on.
  ghost function Turns(s: Sched, calls: seq<Call>): nat
    decreases |calls|
  {
    if calls == [] || !Settled(s) || !Enabled(s, calls[0]) || Step(s, calls[0]).None? then 0
    else (if HandsOn(s, calls[0]) then 1 else 0) + Turns(Step(s, calls[0]).value, calls[1..])
  }

  // Slot x does not run during a run, after its first state.
  ghost predicate NeverRuns(s: Sched, calls: seq<Call>, x: int)
    decreases |calls|
  {
    calls == [] || !Settled(s) || !Enabled(s, calls[0]) || Step(s, calls[0]).None?
    || (Step(s, calls[0]).value.active != x && NeverRuns(Step(s, calls[0]).value, calls[1..], x))
  }

  lemma StepAdvances(s: Sched, c: Call, m: nat)
    requires Settled(s) && Enabled(s, c) && Step(s, c).Some?
    requires m < |s.queue| && !Stub(s, s.queue[m])
    ensures var t, x := Step(s, c).value, s.queue[m];
            t.active == x
            || exists j :: 0 <= j < |t.queue| && t.queue[j] == x && !Stub(t, x) && j + (if HandsOn(s, c) then 1 else 0) <= m
  {
    var t, x := Step(s, c).value, s.queue[m];
    QueuedLive(s, m);
    assert x != s.active;
    if HandsOn(s, c) {
      HandedOn(s, c, m);
    } else {
      assert t.queue[m] == x by { hide Inv; }
      KeptWaitState(s, c, x);
    }
  }

  lemma KeptWaitState(s: Sched, c: Call, x: int)
    requires Settled(s) && Enabled(s, c) && Step(s, c).Some? && !HandsOn(s, c)
    requires Live(s, x) && !Stub(s, x) && x != s.active
    ensures !Stub(Step(s, c).value, x)
  {
    hide QueueOk, Covered, ReapOk;
    SlotCount(s);
    if c.Resume? {
      SettledReported(s);
    }
  }

  lemma HandedOn(s: Sched, c: Call, m: nat)
    requires Settled(s) && Enabled(s, c) && Step(s, c).Some? && HandsOn(s, c)
    requires m < |s.queue| && !Stub(s, s.queue[m]) && s.queue[m] != s.active
    ensures var t, x := Step(s, c).value, s.queue[m];
            t.active == x || exists j :: 0 <= j < |t.queue| && t.queue[j] == x && !Stub(t, x) && j + 1 <= m
  {
    hide Inv;
    var u, x := AtSwitch(s, c), s.queue[m];
    QueuedLive(s, m);
    AtSwitchInv(s, c);
    StaysAtSwitch(s, c, x);
    AtSwitchQueue(s, c);
    DispatchAdvances(u, m);
  }

  lemma AtSwitchQueue(s: Sched, c: Call)
    requires Settled(s) && HandsOn(s, c)
    ensures AtSwitch(s, c).queue == s.queue + (if c.Exit? then [] else [s.active])
  {
    hide PidsOk, Covered, ReapOk;
    if c.Exit? {
      LeaveShape(s, ToInt(c.status));
      assert s.queue + [] == s.queue;
    }
  }

  // Bounded waiting: a queued process that is not a stub runs before the processor has been
  // handed on more often than there were processes before it, and one more.
  lemma {:induction false} BoundedWait(s: Sched, calls: seq<Call>, t: Sched, m: nat)
    requires Settled(s) && RunsTo(s, calls, t) && m < |s.queue| && !Stub(s, s.queue[m])
    requires NeverRuns(s, calls, s.queue[m])
    ensures exists j :: 0 <= j < |t.queue| && t.queue[j] == s.queue[m] && !Stub(t, s.queue[m]) && j + Turns(s, calls) <= m
    decreases |calls|
  {
    if calls != [] {
      hide Inv, Stub, HandsOn, Step;
      var x, u := s.queue[m], Step(s, calls[0]).value;
      StepInv(s, calls[0]);
      StepAdvances(s, calls[0], m);
      var j :| 0 <= j < |u.queue| && u.queue[j] == x && !Stub(u, x) && j + (if HandsOn(s, calls[0]) then 1 else 0) <= m;
      BoundedWait(u, calls[1..], t, j);
    }
  }
}
