/**
  Processes and their system calls as steps of a state machine: sys/task_manager.c and the
  process effects of sys/syscall.c. The ring buffer is seen as the sequence it holds.
 */
module Processes {
  import opened Integers

  // State of a process; 0 (new) and 5 (dead) also occur in the source.
  const NEW_PROC: nat := 0
  const RUNNING: nat := 1
  const ZOMBIE: nat := 2
  const DEAD: nat := 5

  // What a process waits for: to go on with `wait`, or for its image to end.
  const WAITING_TO_LIVE: nat := 1
  const WAITING_TO_DIE: nat := 2

  const NOBODY: int := -1

  datatype Pcb = Pcb(
    sno: int, pid: nat, ppid: nat, waitState: nat, waitingFor: int,
    signallingChild: nat, sigchildState: int, state: nat)

  const CLEARED := Pcb(0, 0, 0, 0, 0, 0, 0, 0)

  datatype Sched = Sched(pcbs: seq<Pcb>, used: seq<bool>, queue: seq<int>, active: int, nextPid: nat)

  datatype Call =
    | Fork
    | Exec
    | Yield
    | Exit(status: nat)
    | Wait(target: nat)
    | Resume            // the loop of `wait` goes round again

  // The comparison of an int with a 64-bit process id.
  predicate IsPid(w: int, pid: nat) {
    pid == if w < 0 then w + 0x1_0000_0000_0000_0000 else w
  }

  // A process id put into an int field is recognised exactly when it is small, or so large
  // that it sign-extends to itself.
  lemma IntPidIff(pid: nat)
    requires pid < 0x1_0000_0000_0000_0000
    ensures IsPid(ToInt(pid), pid) <==> pid < 0x8000_0000 || pid >= 0xFFFF_FFFF_8000_0000
  {
  }

  // ------------------------------------------------------------------- searches

  // The first slot with a process id, and the number of slots when there is none.
  function FirstPid(pcbs: seq<Pcb>, pid: nat): (i: nat)
    ensures i <= |pcbs|
    ensures i < |pcbs| ==> pcbs[i].pid == pid
    ensures forall j :: 0 <= j < i ==> pcbs[j].pid != pid
  {
    if pcbs == [] then 0 else if pcbs[0].pid == pid then 0 else 1 + FirstPid(pcbs[1..], pid)
  }

  function FirstFree(used: seq<bool>): (i: nat)
    ensures i <= |used|
    ensures i < |used| ==> !used[i]
    ensures forall j :: 0 <= j < i ==> used[j]
  {
    if used == [] then 0 else if !used[0] then 0 else 1 + FirstFree(used[1..])
  }

  // ------------------------------------------------------------------ invariant

  ghost predicate SlotsOk(s: Sched) {
    && |s.used| == |s.pcbs|
    && 0 < s.nextPid
    && forall i {:trigger s.pcbs[i]} {:trigger s.used[i]} :: 0 <= i < |s.pcbs| ==>
         && s.pcbs[i].pid < s.nextPid
         && (s.used[i] ==>
               && s.pcbs[i].sno == i
               && s.pcbs[i].ppid < s.pcbs[i].pid
               && (s.pcbs[i].state == RUNNING || s.pcbs[i].state == ZOMBIE))
  }

  ghost predicate PidsOk(s: Sched) {
    forall i, j {:trigger s.pcbs[i], s.pcbs[j]} :: 0 <= i < j < |s.pcbs| && s.pcbs[i].pid == s.pcbs[j].pid ==> s.pcbs[i].pid == 0
  }

  ghost predicate Live(s: Sched, i: int) {
    0 <= i < |s.pcbs| && i < |s.used| && s.used[i] && s.pcbs[i].state == RUNNING
  }

  // Queued slots are distinct, live and RUNNING, and the active one is not queued.
  ghost predicate QueueOk(s: Sched) {
    && (forall k {:trigger s.queue[k]} :: 0 <= k < |s.queue| ==> Live(s, s.queue[k]) && s.queue[k] != s.active)
    && (forall k, m {:trigger s.queue[k], s.queue[m]} :: 0 <= k < m < |s.queue| ==> s.queue[k] != s.queue[m])
    && (s.active == NOBODY || Live(s, s.active))
  }

  // No live process is lost.
  ghost predicate Covered(s: Sched) {
    forall i {:trigger Live(s, i)} :: Live(s, i) ==> i == s.active || i in s.queue
  }

  // The slot c holds the unreaped child that p was last told about.
  ghost predicate Told(s: Sched, p: int, c: int)
    requires 0 <= p < |s.pcbs|
  {
    && 0 <= c < |s.pcbs| && c < |s.used| && s.used[c]
    && s.pcbs[c].state == ZOMBIE
    && s.pcbs[c].pid == s.pcbs[p].signallingChild
    && s.pcbs[c].ppid == s.pcbs[p].pid
  }

  ghost predicate ReapOk(s: Sched) {
    forall p {:trigger Live(s, p)} :: Live(s, p) && s.pcbs[p].sigchildState == 0 ==> exists c :: Told(s, p, c)
  }

  ghost predicate Inv(s: Sched) {
    SlotsOk(s) && PidsOk(s) && QueueOk(s) && Covered(s) && ReapOk(s)
  }

  predicate Stub(s: Sched, i: int) {
    0 <= i < |s.pcbs| && s.pcbs[i].waitState == WAITING_TO_DIE
  }

  // Between two calls: somebody runs, and it is not a stub.
  ghost predicate Settled(s: Sched) {
    Inv(s) && s.active != NOBODY && !Stub(s, s.active)
  }

  // ----------------------------------------------------------------- the pieces

  function Put(s: Sched, i: int, b: Pcb): Sched
    requires 0 <= i < |s.pcbs|
  {
    s.(pcbs := s.pcbs[i := b])
  }

  // An exiting process tells its parent, if there is one.
  function Signal(s: Sched, ppid: nat, status: int, child: nat): Sched {
    var i := FirstPid(s.pcbs, ppid);
    if i == |s.pcbs| then s
    else Put(s, i, s.pcbs[i].(sigchildState := status, signallingChild := child))
  }

  function Enqueue(s: Sched, i: int): Sched {
    s.(queue := s.queue + [i])
  }

  // The active process becomes a zombie and tells its parent.
  function Leave(s: Sched, status: int): Sched
    requires 0 <= s.active < |s.pcbs|
  {
    var me := s.pcbs[s.active];
    Signal(Put(s, s.active, me.(state := ZOMBIE)), me.ppid, status, me.pid)
  }

  // A slot that was waited for is free again.
  function Reap(s: Sched, i: int): Sched
    requires 0 <= i < |s.pcbs| && 0 <= s.pcbs[i].sno < |s.used|
  {
    Put(s, i, s.pcbs[i].(state := DEAD)).(used := s.used[s.pcbs[i].sno := false])
  }

  ghost predicate HasChild(s: Sched, target: nat)
    requires 0 <= s.active < |s.pcbs| && |s.used| == |s.pcbs|
  {
    exists i :: 0 <= i < |s.pcbs| && s.used[i] && s.pcbs[i].ppid == s.pcbs[s.active].pid
             && (ToInt(target) == -1 || IsPid(ToInt(target), s.pcbs[i].pid))
  }

  // The child that the active process was told about.
  function Reported(s: Sched): (i: nat)
    requires 0 <= s.active < |s.pcbs|
  {
    FirstPid(s.pcbs, s.pcbs[s.active].signallingChild)
  }

  lemma FirstPidIs(pcbs: seq<Pcb>, i: nat)
    requires i < |pcbs| && pcbs[i].pid != 0
    requires forall a, b {:trigger pcbs[a], pcbs[b]} :: 0 <= a < b < |pcbs| && pcbs[a].pid == pcbs[b].pid ==> pcbs[a].pid == 0
    ensures FirstPid(pcbs, pcbs[i].pid) == i
  {
  }

  // A live process with sigchild_state 0 finds exactly the zombie child it was told about.
  lemma ReportedIs(s: Sched)
    requires Inv(s) && Live(s, s.active) && s.pcbs[s.active].sigchildState == 0
    ensures var c := Reported(s);
            && Told(s, s.active, c) && c != s.active && c !in s.queue
            && forall d {:trigger Told(s, s.active, d)} :: Told(s, s.active, d) ==> d == c
  {
    var c :| Told(s, s.active, c);
    FirstPidIs(s.pcbs, c);
    forall d | Told(s, s.active, d) ensures d == c {
      FirstPidIs(s.pcbs, d);
    }
  }

  // ------------------------------------------------- leaving, and being reaped

  lemma SignalKeeps(s: Sched, ppid: nat, status: int, child: nat)
    ensures var t := Signal(s, ppid, status, child);
            && |t.pcbs| == |s.pcbs| && t == s.(pcbs := t.pcbs)
            && forall i :: 0 <= i < |s.pcbs| ==>
                 && t.pcbs[i] == s.pcbs[i].(sigchildState := t.pcbs[i].sigchildState, signallingChild := t.pcbs[i].signallingChild)
                 && (t.pcbs[i] != s.pcbs[i] ==>
                       s.pcbs[i].pid == ppid && t.pcbs[i].sigchildState == status && t.pcbs[i].signallingChild == child)
  {
  }

  // Every field but the news of a child.
  predicate SameBut(a: Pcb, b: Pcb) {
    b == a.(sigchildState := b.sigchildState, signallingChild := b.signallingChild)
  }

  lemma LeaveShape(s: Sched, status: int)
    requires Inv(s) && Live(s, s.active)
    ensures var t := Leave(s, status); var me := s.pcbs[s.active];
            && |t.pcbs| == |s.pcbs| && t == s.(pcbs := t.pcbs)
            && t.pcbs[s.active] == me.(state := ZOMBIE)
            && (forall i :: 0 <= i < |s.pcbs| && i != s.active ==> SameBut(s.pcbs[i], t.pcbs[i]))
            && (forall i :: 0 <= i < |s.pcbs| && t.pcbs[i] != s.pcbs[i] && i != s.active ==>
                  s.pcbs[i].pid == me.ppid && t.pcbs[i].sigchildState == status && t.pcbs[i].signallingChild == me.pid)
            && (forall i :: 0 <= i < |s.pcbs| && s.pcbs[i].pid == me.ppid && me.ppid != 0 ==>
                  t.pcbs[i].sigchildState == status && t.pcbs[i].signallingChild == me.pid)
  {
    var me := s.pcbs[s.active];
    var z := Put(s, s.active, me.(state := ZOMBIE));
    SignalKeeps(z, me.ppid, status, me.pid);
    forall i | 0 <= i < |s.pcbs| && s.pcbs[i].pid == me.ppid && me.ppid != 0
      ensures FirstPid(z.pcbs, me.ppid) == i
    {
      FirstPidIs(z.pcbs, i);
    }
  }

  // The state after an exit, or before the search for the image of a dying stub.
  function Left(s: Sched, status: int): Sched
    requires 0 <= s.active < |s.pcbs|
  {
    Leave(s, status).(active := NOBODY)
  }

  lemma LeftLive(s: Sched, status: int)
    requires Inv(s) && Live(s, s.active)
    ensures forall i {:trigger Live(Left(s, status), i)} :: Live(Left(s, status), i) <==> Live(s, i) && i != s.active
  {
    LeaveShape(s, status);
  }

  lemma LeftTold(s: Sched, status: int, p: int)
    requires Inv(s) && Live(s, s.active) && Live(s, p) && p != s.active
    requires Left(s, status).pcbs[p].sigchildState == 0
    ensures exists c :: Told(Left(s, status), p, c)
  {
    LeaveShape(s, status);
    var t := Left(s, status);
    if t.pcbs[p] == s.pcbs[p] {
      var c :| Told(s, p, c);
      assert c != s.active;
      assert Told(t, p, c);
    } else {
      assert Told(t, p, s.active);
    }
  }

  lemma LeftInv(s: Sched, status: int)
    requires Inv(s) && Live(s, s.active)
    ensures Inv(Left(s, status))
  {
    LeaveShape(s, status);
    LeftLive(s, status);
    var t := Left(s, status);
    assert PidsOk(t) && SlotsOk(t) && QueueOk(t) && Covered(t) by {
      hide ReapOk;
    }
    forall p | Live(t, p) && t.pcbs[p].sigchildState == 0 ensures exists c :: Told(t, p, c) {
      LeftTold(s, status, p);
    }
  }

  // Nobody else was told about the child that is reaped.
  lemma ReapInv(s: Sched, i: nat)
    requires Inv(s) && i < |s.pcbs| && s.used[i] && s.pcbs[i].state == ZOMBIE
    requires forall p {:trigger Live(s, p)} :: Live(s, p) && s.pcbs[p].sigchildState == 0 ==> s.pcbs[p].pid != s.pcbs[i].ppid
    ensures Inv(Reap(s, i))
    ensures Reap(s, i).used == s.used[i := false]
    ensures forall p {:trigger Live(Reap(s, i), p)} :: Live(Reap(s, i), p) <==> Live(s, p)
  {
    var t := Reap(s, i);
    assert forall p {:trigger Live(t, p)} :: Live(t, p) <==> Live(s, p);
    assert SlotsOk(t) && PidsOk(t) by { hide ReapOk, Covered, QueueOk; }
    assert QueueOk(t) && Covered(t) by { hide ReapOk, PidsOk; }
    forall p | Live(t, p) && t.pcbs[p].sigchildState == 0 ensures exists c :: Told(t, p, c) {
      assert Live(s, p);
      var c :| Told(s, p, c);
      assert Told(t, p, c);
    }
  }

  // kill_proc: the stub leaves, and the slot of its image is free.
  function Killed(s: Sched): Sched
    requires Inv(s) && Live(s, s.active) && s.pcbs[s.active].sigchildState == 0
  {
    var u := Left(s, 0);
    KilledFinds(s);
    Reap(u, FirstPid(u.pcbs, u.pcbs[s.active].signallingChild))
  }

  // The search for the image in kill_proc finds the slot, after the parent was told.
  lemma KilledFinds(s: Sched)
    requires Inv(s) && Live(s, s.active) && s.pcbs[s.active].sigchildState == 0
    ensures var u := Left(s, 0); var c := Reported(s);
            && c < |s.pcbs| && c != s.active && Told(s, s.active, c)
            && FirstPid(u.pcbs, u.pcbs[s.active].signallingChild) == c
            && u.pcbs[c].sno == c && u.used[c] && u.pcbs[c].state == ZOMBIE
            && u.pcbs[c].pid == s.pcbs[c].pid && u.pcbs[c].ppid == s.pcbs[s.active].pid
  {
    ReportedIs(s);
    LeaveShape(s, 0);
    LeftInv(s, 0);
    var u := Left(s, 0);
    FirstPidIs(u.pcbs, Reported(s));
  }

  lemma KilledInv(s: Sched)
    requires Inv(s) && Live(s, s.active) && s.pcbs[s.active].sigchildState == 0
    ensures Inv(Killed(s)) && Killed(s).active == NOBODY && Killed(s).queue == s.queue
    ensures |Killed(s).pcbs| == |s.pcbs| && Killed(s).nextPid == s.nextPid && Killed(s).used == s.used[Reported(s) := false]
    ensures forall p {:trigger Live(Killed(s), p)} :: Live(Killed(s), p) <==> Live(s, p) && p != s.active
    ensures forall i :: 0 <= i < |s.pcbs| ==> Killed(s).pcbs[i].waitState == s.pcbs[i].waitState
  {
    LeaveShape(s, 0);
    LeftInv(s, 0);
    LeftLive(s, 0);
    KilledFinds(s);
    var u, c := Left(s, 0), Reported(s);
    forall p | Live(u, p) && u.pcbs[p].sigchildState == 0 ensures u.pcbs[p].pid != u.pcbs[c].ppid {
      assert Live(s, p) && p != s.active;
      assert s.pcbs[p].pid != s.pcbs[s.active].pid;
    }
    ReapInv(u, c);
  }
}
