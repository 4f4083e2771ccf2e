/**
  The code through whole runs: every run of the state machine is what the methods do, one
  after the other, and the theorems about runs are about the bytes that user loads find.
 */
module Execution {
  import opened Addressing
  import opened Agreement
  import opened FirstRuns
  import opened FrameAllocator
  import opened Hardware
  import opened Isolation
  import opened Machine
  import opened Memory
  import opened Observed
  import opened Paging
  import opened Recall
  import opened Runs
  import opened Spaces
  import TaskMemory
  import opened VirtualMemory
  import opened VmaLists
  import opened Wrappers

  // The search for a process in the table.
  method SlotOf(k: MemoryManager, pid: nat) returns (slot: nat)
    requires k.Valid() && Enabled(k.sys, k.layout, Switch(pid))
    ensures slot == k.sys.tasks[pid].slot
  {
    hide VmaHeap.Valid, Mmu.Valid, Shows, Inv;
    ShowsInv(k.sys, k.layout, k.Now());
    ghost var i := k.sys.tasks[pid].slot;
    EntryFound(k.sys, k.layout, k.Now(), pid);
    slot := 0;
    while k.slots[slot].pid != pid
      invariant slot <= i
      decreases i - slot
    {
      slot := slot + 1;
    }
  }

  lemma EntryFound(s: Sys, l: Layout, k: State, pid: nat)
    requires Shows(s, l, k) && Inv(s, l) && Enabled(s, l, Switch(pid))
    ensures s.tasks[pid].slot < |k.slots|
    ensures forall i {:trigger k.slots[i]} :: 0 <= i < |k.slots| ==> (k.slots[i].pid == pid <==> i == s.tasks[pid].slot)
  {
    hide WellFormed, Counted, Owned, AliasesOk, KernelOk, Agree;
  }

  // Whatever happens, the kernel does the step; false when the machine stops.
  method Perform(k: MemoryManager, e: Event) returns (ok: bool)
    requires k.Valid() && Enabled(k.sys, k.layout, e)
    modifies k`sys, k`slots, k`active, k`nextPid, k.mmu`ram, k.mmu`vm, k.mmu`cr3, k.mmu`space
    modifies k.mmu.cowPage, k.mmu.frames, k.mmu.frames.pageList
    modifies k.heap`nodes, k.heap`recycleList, k.heap`shape, k.heap.heads
    ensures Inv(old(k.sys), k.layout) && (ok <==> Step(old(k.sys), k.layout, e).Some?)
    ensures ok ==> k.Valid() && Step(old(k.sys), k.layout, e) == Some(k.sys)
  {
    hide VmaHeap.Valid, Mmu.Valid, Shows, Step, MemoryManager.Valid, Inv, AreasOk, SlotFree, ImageOk, Upper, Layout.IsAlias;
    ok := true;
    match e
    case Fork(slot) => ok := k.Fork(slot);
    case Exec(slot, areas, heapTop, image) => ok := k.Exec(slot, areas, heapTop, image);
    case Load(a) =>
      var r := k.Load(a);
      ok := r.Some?;
    case Store(a, b) => ok := k.Store(a, b);
    case Mmap(length) => var start := k.Mmap(length);
    case Munmap(a, length) => ok := k.Munmap(a, length);
    case Exit => k.Exit();
    case Switch(pid) =>
      var slot := SlotOf(k, pid);
      k.Switch(slot, pid);
    case KernelMap(n) =>
      KernelAddress(n);
      ok := k.Touch(0xFFFF_0000_0000_0000 + n * 0x1000);
    case KernelStore(a, b) => k.StoreShared(a, b);
  }

  lemma KernelAddress(n: nat)
    requires n / 512 / 512 / 512 == KERNEL_SLOT
    ensures var va := 0xFFFF_0000_0000_0000 + n * 0x1000; Upper(va) && PageOf(va) == n
  {
    hide Canonical, PageOf, HwPml4, OffsetOf, Upper;
    UpperAddress(n, 0);
    UpperIff(0xFFFF_0000_0000_0000 + n * 0x1000);
  }

  // Every run of the state machine is performed.
  method Run(k: MemoryManager, events: seq<Event>, ghost t: Sys)
    requires k.Valid() && Inv(k.sys, k.layout) && RunsTo(k.sys, k.layout, events, t)
    modifies k`sys, k`slots, k`active, k`nextPid, k.mmu`ram, k.mmu`vm, k.mmu`cr3, k.mmu`space
    modifies k.mmu.cowPage, k.mmu.frames, k.mmu.frames.pageList
    modifies k.heap`nodes, k.heap`recycleList, k.heap`shape, k.heap.heads
    ensures k.Valid() && k.sys == t
  {
    hide VmaHeap.Valid, Mmu.Valid, Shows, Step, MemoryManager.Valid, Inv, Enabled, RunsTo;
    assert events[0..] == events;
    for i := 0 to |events|
      invariant k.Valid() && Inv(k.sys, k.layout) && RunsTo(k.sys, k.layout, events[i..], t)
    {
      ghost var rest := events[i..];
      assert rest[0] == events[i] && rest[1..] == events[i + 1..];
      RunHead(k.sys, k.layout, rest, t);
      StepInv(k.sys, k.layout, rest[0]);
      var ok := Perform(k, events[i]);
    }
    assert events[|events|..] == [];
    RunNothing(k.sys, k.layout, t);
  }

  lemma RunHead(s: Sys, l: Layout, events: seq<Event>, t: Sys)
    requires events != [] && Inv(s, l) && RunsTo(s, l, events, t)
    ensures Enabled(s, l, events[0]) && Step(s, l, events[0]).Some? && Inv(Step(s, l, events[0]).value, l)
    ensures RunsTo(Step(s, l, events[0]).value, l, events[1..], t)
  {
    hide Inv, Step, Enabled;
    StepInv(s, l, events[0]);
  }

  lemma RunNothing(s: Sys, l: Layout, t: Sys)
    requires Inv(s, l) && RunsTo(s, l, [], t)
    ensures s == t
  {
  }

  // ---------------------------------------------------------- what processes load

  // What a load of a process finds in memory now.
  ghost function Finds(k: MemoryManager, q: nat, a: nat): Option<Byte>
    requires Top(q) in k.mmu.vm.tables && k.mmu.vm.tables[Top(q)] < |k.mmu.ram|
    reads k, k.mmu
  {
    Loaded(k.mmu.ram, k.mmu.vm.tables[Top(q)], a)
  }

  lemma AtHand(k: MemoryManager, q: nat)
    requires k.Valid() && q in k.sys.tasks && k.sys.tasks[q].live
    ensures Inv(k.sys, k.layout) && Pictures(k.mmu.ram, k.sys.vm, k.mmu.vm)
    ensures Top(q) in k.mmu.vm.tables && k.mmu.vm.tables[Top(q)] < |k.mmu.ram|
  {
    hide VmaHeap.Valid, Inv, WellFormed, Shows;
    ShowsInv(k.sys, k.layout, k.Now());
    AgreeOf(k.sys, k.layout, k.Now());
    LiveTop(k.sys, k.layout, q);
    SameForUsers(k.sys.vm, k.mmu.vm, k.layout);
    CoupledInRam(k.mmu.ram, k.mmu.vm, Top(q));
  }

  lemma SameForUsers(vm: Vm, v: Vm, l: Layout)
    requires Agree(vm, v, l)
    ensures TaskMemory.UserDataSame(vm, v)
  {
    hide Layout.IsAlias;
  }

  // Whatever the kernel and the others do, a process that does nothing finds the same bytes.
  method RunSpares(k: MemoryManager, events: seq<Event>, ghost t: Sys, ghost q: nat, ghost a: nat)
    requires k.Valid() && Inv(k.sys, k.layout) && RunsTo(k.sys, k.layout, events, t) && Spares(k.sys, k.layout, events, q)
    requires q in k.sys.tasks && k.sys.tasks[q].live && Private(a)
    modifies k`sys, k`slots, k`active, k`nextPid, k.mmu`ram, k.mmu`vm, k.mmu`cr3, k.mmu`space
    modifies k.mmu.cowPage, k.mmu.frames, k.mmu.frames.pageList
    modifies k.heap`nodes, k.heap`recycleList, k.heap`shape, k.heap.heads
    ensures k.Valid() && k.sys == t
    ensures old(Top(q) in k.mmu.vm.tables && k.mmu.vm.tables[Top(q)] < |k.mmu.ram|)
    ensures Top(q) in k.mmu.vm.tables && k.mmu.vm.tables[Top(q)] < |k.mmu.ram|
    ensures Finds(k, q, a) == old(Finds(k, q, a))
  {
    hide VmaHeap.Valid, Mmu.Valid, Shows, Step, MemoryManager.Valid, Inv, Enabled, RunsTo, Spares, Loaded, Pictures;
    ghost var s, ram, v := k.sys, k.mmu.ram, k.mmu.vm;
    AtHand(k, q);
    Run(k, events, t);
    Runs.RunIsolated(s, k.layout, events, t, q);
    AtHand(k, q);
    RunLoadsSame(s, k.layout, events, t, q, a, ram, v, k.mmu.ram, k.mmu.vm);
  }

  // And whatever it does itself, it finds the byte it stored last.
  method RunKeeps(k: MemoryManager, events: seq<Event>, ghost t: Sys, ghost q: nat, ghost a: nat, ghost c: Byte)
    requires k.Valid() && Inv(k.sys, k.layout) && RunsTo(k.sys, k.layout, events, t)
    requires HarmlessRun(k.sys, k.layout, events, q)
    requires q in k.sys.tasks && k.sys.tasks[q].live && Private(a)
    requires Keeps(k.sys.tasks[q], OwnEvents(k.sys, k.layout, events, q), a)
    requires Top(q) in k.mmu.vm.tables && k.mmu.vm.tables[Top(q)] < |k.mmu.ram| && Finds(k, q, a) == Some(c)
    modifies k`sys, k`slots, k`active, k`nextPid, k.mmu`ram, k.mmu`vm, k.mmu`cr3, k.mmu`space
    modifies k.mmu.cowPage, k.mmu.frames, k.mmu.frames.pageList
    modifies k.heap`nodes, k.heap`recycleList, k.heap`shape, k.heap.heads
    ensures k.Valid() && k.sys == t
    ensures Top(q) in k.mmu.vm.tables && k.mmu.vm.tables[Top(q)] < |k.mmu.ram|
    ensures Finds(k, q, a) == Some(LastStored(old(OwnEvents(k.sys, k.layout, events, q)), a, c))
  {
    hide VmaHeap.Valid, Mmu.Valid, Shows, Step, MemoryManager.Valid, Inv, Enabled, RunsTo, HarmlessRun, OwnEvents, Keeps, LastStored;
    hide Loaded, Pictures, Reads, Private;
    ghost var s, ram, v := k.sys, k.mmu.ram, k.mmu.vm;
    AtHand(k, q);
    Run(k, events, t);
    StaysLive(s, k.layout, events, t, q, a, c, ram, v);
    AtHand(k, q);
    RunLoadsStored(s, k.layout, events, t, q, a, c, ram, v, k.mmu.ram, k.mmu.vm);
  }

  lemma StaysLive(s: Sys, l: Layout, events: seq<Event>, t: Sys, q: nat, a: nat, c: Byte, ram: Ram, v: Vm)
    requires Inv(s, l) && RunsTo(s, l, events, t) && HarmlessRun(s, l, events, q)
    requires q in s.tasks && s.tasks[q].live && Private(a) && Pictures(ram, s.vm, v)
    requires Top(q) in v.tables && v.tables[Top(q)] < |ram| && Loaded(ram, v.tables[Top(q)], a) == Some(c)
    ensures q in t.tasks && t.tasks[q].live
  {
    hide Inv, RunsTo, HarmlessRun, OwnEvents, Folded, Private, WellFormed, Reads, Loaded, Coupled;
    LiveTop(s, l, q);
    LoadedIs(ram, s.vm, v, q, a);
    ReadsIsView(s.vm, q, a, c);
    RunDetermined(s, l, events, t, q, a, Known(c));
  }

  // ------------------------------------------------------------------------ start

  // The kernel with its first process, over any memory that shows that state.
  method Start(frames: PhysicalMemoryManager, cowPage: array<Byte>, ram: Ram, cr3: nat, layout: Layout, ghost s: Sys)
      returns (k: MemoryManager)
    requires OneTask(s, layout) && Coupled(ram, s.vm) && Top(1) in s.vm.tables && cr3 == s.vm.tables[Top(1)]
    requires frames.Valid() && frames.freeMemory == 4096 * s.vm.base && frames.View() == s.vm.alloc && cowPage.Length == 4096
    ensures fresh(k) && k.Valid() && k.sys == s && k.mmu.ram == ram && k.layout == layout
  {
    hide Inv, Coupled, WellFormed, VmaHeap.Valid, Mmu.Valid, Shows, AreasOf, MemoryManager.Valid, OneTask;
    hide PhysicalMemoryManager.Valid, PhysicalMemoryManager.View;
    var mmu := new Mmu(frames, cowPage, ram, cr3, s.vm, 1);
    var heap := new VmaHeap(layout.slots);
    SomeSlots(s, layout);
    heap.AddArea(0, AREA.start, AREA.end);
    var slots := seq(layout.slots, i => if i == 0 then Slot(1, 4096 * cr3, 8192) else Slot(0, 0, 0));
    ghost var areas := AllAreas(heap.nodes, heap.shape.lists);
    assert forall i {:trigger areas[i]} :: 0 <= i < |areas| ==> areas[i] == heap.Areas(i);
    FirstShown(s, layout, State(s.vm, 1, slots, 0, 2, areas));
    k := new MemoryManager(mmu, heap, layout, slots, 0, 2, s);
  }

  lemma SomeSlots(s: Sys, l: Layout)
    requires OneTask(s, l)
    ensures l.slots > 1
  {
  }

  lemma FirstShown(s: Sys, l: Layout, k: State)
    requires OneTask(s, l) && Top(1) in s.vm.tables && k.vm == s.vm && k.space == 1 && k.active == 0 && k.nextPid == 2
    requires |k.slots| == |k.areas| == l.slots
    requires forall i {:trigger k.slots[i]} :: 0 <= i < |k.slots| ==>
               k.slots[i] == if i == 0 then Slot(1, 4096 * s.vm.tables[Top(1)], 8192) else Slot(0, 0, 0)
    requires forall i {:trigger k.areas[i]} :: 0 <= i < |k.areas| ==> k.areas[i] == if i == 0 then [AREA] else []
    ensures Shows(s, l, k)
  {
    hide Inv;
    assert Entered(s.tasks[1], 1, k.slots, s.vm.tables);
  }
}
