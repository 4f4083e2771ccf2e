/**
  The theorems about runs, read off physical memory: what a user load finds through the walk
  before and after.
 */
module Observed {
  import opened Addressing
  import opened Hardware
  import opened Isolation
  import opened Memory
  import opened Recall
  import opened Runs
  import opened Spaces
  import opened TaskMemory
  import opened VirtualMemory
  import opened Wrappers

  // Memory shows `v`, which is `vm` but for the bytes of frames that no process shows: the
  // state machine does not say what the frames of tables hold, and the code writes them.
  ghost predicate Pictures(ram: Ram, vm: Vm, v: Vm) {
    Coupled(ram, v) && v.tables == vm.tables && v.pages == vm.pages && UserDataSame(vm, v)
  }

  // What a user load finds at an address, without a fault.
  function Loaded(ram: Ram, root: nat, a: nat): Option<Byte>
    requires root < |ram|
  {
    var hit := Translate(ram, root, a);
    if Grants(hit, false) then Some(ram[hit.value.frame][OffsetOf(a)]) else None
  }

  lemma LoadedIs(ram: Ram, vm: Vm, v: Vm, q: nat, a: nat)
    requires WellFormed(vm) && Pictures(ram, vm, v) && Top(q) in vm.tables && Private(a)
    ensures forall p {:trigger vm.pages[p]} :: p in vm.pages ==> vm.pages[p].frame < |vm.data|
    ensures v.tables[Top(q)] < |ram| && Loaded(ram, v.tables[Top(q)], a) == View(vm, q, a)
  {
    FramesInData(vm);
    hide WellFormed, Coupled, Translate, Private, PageOf, Permitted;
    PrivateGrants(ram, v, q, a, false);
    UserSpace(ram, v, q);
    PermittedIs(v, q, a);
    if UserPage(q, a) in v.pages {
      ByteSeen(ram, v, q, a);
      NotKernel(v, q);
    }
  }

  lemma NotKernel(vm: Vm, q: nat)
    requires InUse(vm, q)
    ensures q != KERNEL
  {
  }

  lemma PermittedIs(vm: Vm, q: nat, a: nat)
    requires Private(a)
    ensures Permitted(vm, q, a, false) <==> UserPage(q, a) in vm.pages
  {
  }

  lemma LiveTop(s: Sys, l: Layout, q: nat)
    requires Inv(s, l) && q in s.tasks && s.tasks[q].live
    ensures WellFormed(s.vm) && Top(q) in s.vm.tables
  {
    hide WellFormed, Counted, Owned, AliasesOk, KernelOk;
  }

  // Whatever others do, a process loads the same bytes afterwards.
  lemma RunLoadsSame(s: Sys, l: Layout, events: seq<Event>, t: Sys, q: nat, a: nat, ram: Ram, v: Vm, ram2: Ram, w: Vm)
    requires Inv(s, l) && RunsTo(s, l, events, t) && Spares(s, l, events, q)
    requires q in s.tasks && s.tasks[q].live && Private(a)
    requires Pictures(ram, s.vm, v) && Pictures(ram2, t.vm, w)
    ensures Top(q) in v.tables && Top(q) in w.tables && v.tables[Top(q)] < |ram| && w.tables[Top(q)] < |ram2|
    ensures Loaded(ram2, w.tables[Top(q)], a) == Loaded(ram, v.tables[Top(q)], a)
  {
    hide Inv, RunsTo, Spares, WellFormed, Undisturbed, Private, Loaded, Coupled;
    RunIsolated(s, l, events, t, q);
    RunInv(s, l, events, t);
    LiveTop(s, l, q);
    LiveTop(t, l, q);
    LoadedIs(ram, s.vm, v, q, a);
    LoadedIs(ram2, t.vm, w, q, a);
    RunReadsSame(s, l, events, t, q, a);
  }

  // And whatever it does itself as well, as long as it does not unmap the page, the bytes it
  // stored last.
  lemma RunLoadsStored(s: Sys, l: Layout, events: seq<Event>, t: Sys, q: nat, a: nat, c: Byte, ram: Ram, v: Vm, ram2: Ram, w: Vm)
    requires Inv(s, l) && RunsTo(s, l, events, t) && HarmlessRun(s, l, events, q)
    requires q in s.tasks && s.tasks[q].live && Private(a)
    requires Keeps(s.tasks[q], OwnEvents(s, l, events, q), a)
    requires Pictures(ram, s.vm, v) && Pictures(ram2, t.vm, w)
    requires v.tables[Top(q)] < |ram| && Loaded(ram, v.tables[Top(q)], a) == Some(c)
    ensures Top(q) in w.tables && w.tables[Top(q)] < |ram2|
    ensures Loaded(ram2, w.tables[Top(q)], a) == Some(LastStored(OwnEvents(s, l, events, q), a, c))
  {
    hide Inv, RunsTo, HarmlessRun, WellFormed, Reads, Private, Loaded, Coupled, LastStored, OwnEvents, Keeps;
    LiveTop(s, l, q);
    RunInv(s, l, events, t);
    RunRecalls(s, l, events, t, q, a, c) by {
      LoadedIs(ram, s.vm, v, q, a);
      ReadsIsView(s.vm, q, a, c);
    }
    LiveTop(t, l, q);
    LoadedIs(ram2, t.vm, w, q, a);
    ReadsIsView(t.vm, q, a, LastStored(OwnEvents(s, l, events, q), a, c));
  }
}
