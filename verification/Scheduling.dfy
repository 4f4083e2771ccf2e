/**
  The recursion of syscall_switch: stubs that come up are put back or killed until a
  process is found that can go on.
 */
module Scheduling {
  import opened Processes

  // The position of the first queued process that is not waiting to die.
  function FirstReady(pcbs: seq<Pcb>, queue: seq<int>): (k: nat)
    ensures k <= |queue|
    ensures forall j :: 0 <= j < k ==> 0 <= queue[j] < |pcbs| && pcbs[queue[j]].waitState == WAITING_TO_DIE
    ensures k < |queue| ==> !(0 <= queue[k] < |pcbs| && pcbs[queue[k]].waitState == WAITING_TO_DIE)
  {
    if queue == [] then 0
    else if 0 <= queue[0] < |pcbs| && pcbs[queue[0]].waitState == WAITING_TO_DIE then 1 + FirstReady(pcbs, queue[1..])
    else 0
  }

  ghost predicate Idle(s: Sched) {
    Inv(s) && s.active == NOBODY
  }

  function Popped(s: Sched): Sched
    requires s.queue != []
  {
    s.(queue := s.queue[1..], active := s.queue[0])
  }

  // The image of a stub has ended.
  predicate Due(b: Pcb) {
    IsPid(b.waitingFor, b.signallingChild) && b.sigchildState == 0
  }

  lemma PoppedInv(s: Sched)
    requires Idle(s) && s.queue != []
    ensures Inv(Popped(s)) && Live(Popped(s), s.queue[0]) && Live(s, s.queue[0])
    ensures forall i {:trigger Live(Popped(s), i)} :: Live(Popped(s), i) <==> Live(s, i)
  {
    var t := Popped(s);
    assert forall i {:trigger Live(t, i)} :: Live(t, i) <==> Live(s, i);
    assert SlotsOk(t) && PidsOk(t);
    assert QueueOk(t) && Covered(t) by { hide ReapOk, PidsOk; }
    forall p | Live(t, p) && t.pcbs[p].sigchildState == 0 ensures exists c :: Told(t, p, c) {
      assert Live(s, p);
      var c :| Told(s, p, c);
      assert Told(t, p, c);
    }
  }

  function PutBack(s: Sched): Sched {
    s.(queue := s.queue + [s.active], active := NOBODY)
  }

  lemma PutBackInv(s: Sched)
    requires Inv(s) && Live(s, s.active)
    ensures Idle(PutBack(s))
    ensures forall i {:trigger Live(PutBack(s), i)} :: Live(PutBack(s), i) <==> Live(s, i)
  {
    var t := PutBack(s);
    assert forall i {:trigger Live(t, i)} :: Live(t, i) <==> Live(s, i);
    assert SlotsOk(t) && PidsOk(t);
    assert QueueOk(t) && Covered(t) by { hide ReapOk, PidsOk; }
    forall p | Live(t, p) && t.pcbs[p].sigchildState == 0 ensures exists c :: Told(t, p, c) {
      assert Live(s, p);
      var c :| Told(s, p, c);
      assert Told(t, p, c);
    }
  }

  // One round of the recursion, when a stub comes up.
  ghost function StubTurn(s: Sched): Sched
    requires Idle(s) && s.queue != []
  {
    PoppedInv(s);
    var t := Popped(s);
    if Due(t.pcbs[t.active]) then Killed(t) else PutBack(t)
  }

  lemma StubTurnKeeps(s: Sched)
    requires Idle(s) && s.queue != []
    ensures var t := StubTurn(s); var x := s.queue[0];
            && Idle(t) && |t.pcbs| == |s.pcbs| && t.nextPid == s.nextPid
            && (forall i {:trigger Live(t, i)} :: Live(t, i) ==> Live(s, i))
            && (forall i {:trigger t.pcbs[i]} :: 0 <= i < |s.pcbs| ==> t.pcbs[i].waitState == s.pcbs[i].waitState)
            && t.queue == s.queue[1..] + (if Due(s.pcbs[x]) then [] else [x])
            && (Due(s.pcbs[x]) ==> !Live(t, x))
  {
    PoppedInv(s);
    var p := Popped(s);
    hide Inv, SlotsOk, PidsOk, QueueOk, Covered, ReapOk, Killed, Live;
    if Due(p.pcbs[p.active]) {
      KilledInv(p);
      assert Killed(p).queue == s.queue[1..] + [];
    } else {
      PutBackInv(p);
    }
  }

  lemma ReadyAfter(a: seq<Pcb>, b: seq<Pcb>, q: seq<int>, rest: seq<int>)
    requires |a| == |b| && forall i {:trigger b[i]} :: 0 <= i < |a| ==> b[i].waitState == a[i].waitState
    requires 0 < FirstReady(a, q) < |q|
    ensures FirstReady(b, q[1..] + rest) == FirstReady(a, q) - 1
  {
    var n := q[1..] + rest;
    var k, m := FirstReady(a, q), FirstReady(b, n);
    assert n[k - 1] == q[k];
    assert forall j :: 0 <= j < k - 1 ==> n[j] == q[j + 1];
  }

  lemma NoneReadyAfter(a: seq<Pcb>, b: seq<Pcb>, q: seq<int>, rest: seq<int>)
    requires |a| == |b| && forall i {:trigger b[i]} :: 0 <= i < |a| ==> b[i].waitState == a[i].waitState
    requires q != [] && FirstReady(a, q) == |q|
    requires rest == [] || rest == [q[0]]
    ensures FirstReady(b, q[1..] + rest) == |q[1..] + rest|
  {
    var n := q[1..] + rest;
    var m := FirstReady(b, n);
    assert forall j :: 0 <= j < |n| ==> n[j] == if j < |q| - 1 then q[j + 1] else q[0];
  }

  // What syscall_switch does once the caller is in the queue, or gone.
  ghost function Dispatch(s: Sched): Sched
    requires Idle(s) && FirstReady(s.pcbs, s.queue) < |s.queue|
    decreases FirstReady(s.pcbs, s.queue)
  {
    if FirstReady(s.pcbs, s.queue) == 0 then Popped(s)
    else
      StubTurnKeeps(s);
      var rest := if Due(s.pcbs[s.queue[0]]) then [] else [s.queue[0]];
      ReadyAfter(s.pcbs, StubTurn(s).pcbs, s.queue, rest);
      Dispatch(StubTurn(s))
  }

  // Those of a queue that are still alive, in order.
  ghost function Survivors(q: seq<int>, s: Sched): seq<int> {
    if q == [] then [] else (if Live(s, q[0]) then [q[0]] else []) + Survivors(q[1..], s)
  }

  // The first process that can go on is chosen; those behind it keep their order, and
  // behind them come the stubs that were ahead of it and are still there, in order.
  lemma {:induction false} DispatchOrder(s: Sched)
    requires Idle(s) && FirstReady(s.pcbs, s.queue) < |s.queue|
    ensures var k, t := FirstReady(s.pcbs, s.queue), Dispatch(s);
            && Settled(t) && t.active == s.queue[k]
            && t.queue == s.queue[k + 1..] + Survivors(s.queue[..k], t)
            && |t.pcbs| == |s.pcbs| && t.nextPid == s.nextPid
            && (forall i {:trigger Live(t, i)} :: Live(t, i) ==> Live(s, i))
            && (forall i {:trigger t.pcbs[i]} :: 0 <= i < |s.pcbs| ==> t.pcbs[i].waitState == s.pcbs[i].waitState)
    decreases FirstReady(s.pcbs, s.queue), 1
  {
    var k, t, q := FirstReady(s.pcbs, s.queue), Dispatch(s), s.queue;
    if k == 0 {
      PoppedInv(s);
      assert q[..0] == [];
      assert t.queue == q[1..] + Survivors(q[..0], t);
    } else {
      DispatchMore(s);
    }
  }

  lemma DispatchMore(s: Sched)
    requires Idle(s) && 0 < FirstReady(s.pcbs, s.queue) < |s.queue|
    ensures var k, t := FirstReady(s.pcbs, s.queue), Dispatch(s);
            && Settled(t) && t.active == s.queue[k]
            && t.queue == s.queue[k + 1..] + Survivors(s.queue[..k], t)
            && |t.pcbs| == |s.pcbs| && t.nextPid == s.nextPid
            && (forall i {:trigger Live(t, i)} :: Live(t, i) ==> Live(s, i))
            && (forall i {:trigger t.pcbs[i]} :: 0 <= i < |s.pcbs| ==> t.pcbs[i].waitState == s.pcbs[i].waitState)
    decreases FirstReady(s.pcbs, s.queue), 0
  {
    hide Inv, Live, Stub, StubTurn, Due;
    var k, q, x := FirstReady(s.pcbs, s.queue), s.queue, s.queue[0];
    StubTurnKeeps(s);
    var m := StubTurn(s);
    var rest := if Due(s.pcbs[x]) then [] else [x];
    ReadyAfter(s.pcbs, m.pcbs, q, rest);
    var t := Dispatch(m);
    assert Dispatch(s) == t;
    DispatchOrder(m);
    assert m.queue[k - 1] == q[k];
    assert rest == [x] || (rest == [] && !Live(t, x));
    OrderAfter(q, m.queue, rest, k, t);
  }

  lemma OrderAfter(q: seq<int>, n: seq<int>, rest: seq<int>, k: nat, t: Sched)
    requires 0 < k < |q| && n == q[1..] + rest && Inv(t)
    requires rest == [q[0]] || (rest == [] && !Live(t, q[0]))
    requires t.queue == n[k..] + Survivors(n[..k - 1], t)
    ensures t.queue == q[k + 1..] + Survivors(q[..k], t)
  {
    hide Inv, Live;
    var x := q[0];
    assert n[k..] == q[k + 1..] + rest;
    assert n[..k - 1] == q[1..k];
    if rest == [x] {
      assert t.queue[|q| - k - 1] == x;
      QueuedLive(t, |q| - k - 1);
    }
    assert q[..k][0] == x && q[..k][1..] == q[1..k];
    assert Survivors(q[..k], t) == rest + Survivors(q[1..k], t);
    assert q[k + 1..] + rest + Survivors(q[1..k], t) == q[k + 1..] + (rest + Survivors(q[1..k], t));
  }

  lemma QueuedLive(s: Sched, k: nat)
    requires Inv(s) && k < |s.queue|
    ensures Live(s, s.queue[k])
  {
  }

  // ------------------------------------------------- when the recursion ends at all

  // Up to n rounds of the recursion.
  ghost function Rounds(s: Sched, n: nat): (t: Sched)
    requires Idle(s)
    ensures Idle(t)
    decreases n
  {
    if n == 0 || s.queue == [] || FirstReady(s.pcbs, s.queue) == 0 then s
    else
      StubTurnKeeps(s);
      Rounds(StubTurn(s), n - 1)
  }

  lemma {:induction false} NeverReady(s: Sched, n: nat)
    requires Idle(s) && FirstReady(s.pcbs, s.queue) == |s.queue|
    ensures FirstReady(Rounds(s, n).pcbs, Rounds(s, n).queue) == |Rounds(s, n).queue|
    decreases n
  {
    if n > 0 && s.queue != [] {
      StubTurnKeeps(s);
      var rest := if Due(s.pcbs[s.queue[0]]) then [] else [s.queue[0]];
      NoneReadyAfter(s.pcbs, StubTurn(s).pcbs, s.queue, rest);
      NeverReady(StubTurn(s), n - 1);
    }
  }

  lemma StubTurnReady(s: Sched)
    requires Idle(s) && 0 < FirstReady(s.pcbs, s.queue) < |s.queue|
    ensures Idle(StubTurn(s)) && FirstReady(StubTurn(s).pcbs, StubTurn(s).queue) == FirstReady(s.pcbs, s.queue) - 1
    ensures FirstReady(StubTurn(s).pcbs, StubTurn(s).queue) < |StubTurn(s).queue|
  {
    hide Inv, StubTurn, Live;
    StubTurnKeeps(s);
    var rest := if Due(s.pcbs[s.queue[0]]) then [] else [s.queue[0]];
    ReadyAfter(s.pcbs, StubTurn(s).pcbs, s.queue, rest);
  }

  lemma {:induction false} ReadyInTime(s: Sched)
    requires Idle(s) && FirstReady(s.pcbs, s.queue) < |s.queue|
    ensures var t := Rounds(s, FirstReady(s.pcbs, s.queue));
            t.queue != [] && FirstReady(t.pcbs, t.queue) == 0 && Dispatch(s) == Popped(t)
    decreases FirstReady(s.pcbs, s.queue)
  {
    hide Inv, StubTurn, FirstReady, Popped, Due;
    if FirstReady(s.pcbs, s.queue) > 0 {
      StubTurnReady(s);
      ReadyInTime(StubTurn(s));
    }
  }

  // The recursion of syscall_switch ends with a process to run exactly when some queued
  // process is not waiting to die; otherwise it goes round for ever, or runs out of stubs.
  lemma DispatchIff(s: Sched)
    requires Idle(s)
    ensures (exists k :: 0 <= k < |s.queue| && !Stub(s, s.queue[k]))
            <==> (exists n: nat :: Rounds(s, n).queue != [] && FirstReady(Rounds(s, n).pcbs, Rounds(s, n).queue) == 0)
  {
    var f := FirstReady(s.pcbs, s.queue);
    if f < |s.queue| {
      ReadyInTime(s);
      assert !Stub(s, s.queue[f]);
    } else {
      forall n: nat ensures FirstReady(Rounds(s, n).pcbs, Rounds(s, n).queue) == |Rounds(s, n).queue| {
        NeverReady(s, n);
      }
    }
  }
}
