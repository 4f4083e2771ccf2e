/**
  The memory side of the kernel as one object: physical memory, the lists of areas, and what
  the process table says of address spaces.  Whatever sequence of calls, faults and user
  accesses comes, its methods do the steps of the state machine.
 */
module Machine {
  import opened Addressing
  import opened Agreement
  import Births
  import Bounds
  import opened FrameAllocator
  import opened Hardware
  import opened Isolation
  import opened Loader
  import opened Memory
  import opened Paging
  import Protection
  import opened Recall
  import opened Runs
  import opened Spaces
  import opened TaskMemory
  import opened VirtualMemory
  import opened VmaLists
  import opened Wrappers

  // What the entry of a process in the table says of its memory.
  datatype Slot = Slot(pid: nat, cr3: nat, heapTop: nat)

  // The areas a slot should have: those of its last owner.
  function SlotAreas(s: Sys, i: nat): seq<Vma> {
    if i in s.owner && s.owner[i] in s.tasks then s.tasks[s.owner[i]].areas else []
  }

  // The last process of a slot.
  function SlotPid(s: Sys, i: nat): nat {
    if i in s.owner then s.owner[i] else 0
  }

  function AllAreas(nodes: seq<Node>, lists: seq<seq<int>>): seq<seq<Vma>> {
    seq(|lists|, i requires 0 <= i < |lists| => AreasOf(nodes, lists[i]))
  }

  // The entry of a live process.
  predicate Entered(t: Task, p: nat, slots: seq<Slot>, tables: map<Table, nat>) {
    && t.slot < |slots| && Top(p) in tables
    && slots[t.slot] == Slot(p, 4096 * tables[Top(p)], t.heapTop)
  }

  // Everything the kernel keeps in these variables, as one value.
  datatype State = State(vm: Vm, space: nat, slots: seq<Slot>, active: nat, nextPid: nat, areas: seq<seq<Vma>>)

  ghost predicate TableShows(s: Sys, l: Layout, k: State) {
    && |k.slots| == |k.areas| == l.slots && k.nextPid == s.nextPid
    && (forall p {:trigger s.tasks[p]} :: p in s.tasks ==>
          if s.tasks[p].live then Entered(s.tasks[p], p, k.slots, s.vm.tables) else s.tasks[p].areas == [])
    && (forall i {:trigger k.areas[i]} :: 0 <= i < |k.areas| ==> k.areas[i] == SlotAreas(s, i))
    && (forall i {:trigger k.slots[i]} :: 0 <= i < |k.slots| ==> k.slots[i].pid == SlotPid(s, i))
    && (Running(s) ==> k.active == s.tasks[s.active].slot && k.space == s.active)
  }

  // The kernel is in a state of the system.
  ghost predicate Shows(s: Sys, l: Layout, k: State) {
    Inv(s, l) && Agree(s.vm, k.vm, l) && TableShows(s, l, k)
  }

  class MemoryManager {
    const mmu: Mmu
    const heap: VmaHeap
    const layout: Layout
    var slots: seq<Slot>
    var active: nat
    var nextPid: nat
    ghost var sys: Sys

    ghost function Now(): State
      reads this, mmu, heap
    {
      State(mmu.vm, mmu.space, slots, active, nextPid, AllAreas(heap.nodes, heap.shape.lists))
    }

    ghost predicate Valid()
      reads this, mmu, mmu.frames, mmu.frames.pageList, heap, heap.heads
    {
      mmu.Valid() && heap.Valid() && |heap.shape.lists| == heap.heads.Length && Shows(sys, layout, Now())
    }

    constructor (mmu: Mmu, heap: VmaHeap, layout: Layout, slots: seq<Slot>, active: nat, nextPid: nat, ghost sys: Sys)
      requires mmu.Valid() && heap.Valid() && |heap.shape.lists| == heap.heads.Length
      requires Shows(sys, layout,
                     State(mmu.vm, mmu.space, slots, active, nextPid, AllAreas(heap.nodes, heap.shape.lists)))
      ensures Valid() && this.sys == sys && this.layout == layout && this.mmu == mmu && this.heap == heap
    {
      this.mmu, this.heap, this.layout := mmu, heap, layout;
      this.slots, this.active, this.nextPid, this.sys := slots, active, nextPid, sys;
    }

    lemma AreasAre()
      requires heap.Valid()
      ensures |Now().areas| == |heap.shape.lists|
      ensures forall i {:trigger Now().areas[i]} :: 0 <= i < |heap.shape.lists| ==> Now().areas[i] == heap.Areas(i)
    {
      hide VmaHeap.Valid, AreasOf;
    }

    // A load by the running process, at an address of its own.
    method Load(a: nat) returns (r: Option<Byte>)
      requires Valid() && Enabled(sys, layout, Event.Load(a))
      modifies this`sys, mmu`ram, mmu`vm, mmu.cowPage, mmu.frames, mmu.frames.pageList
      ensures Inv(old(sys), layout) && (r.Some? <==> Step(old(sys), layout, Event.Load(a)).Some?)
      ensures r.Some? ==>
        Valid() && Step(old(sys), layout, Event.Load(a)) == Some(sys) && Reads(sys.vm, sys.active, a, r.value)
    {
      hide VmaHeap.Valid, Mmu.Valid, Shows, Enabled, Reads, Private, Canonical, Access, Fails, Step;
      ghost var s, k := sys, Now();
      ShowsInv(s, layout, k);
      BeforeLoad(s, layout, k, a);
      r := UserLoad(mmu, heap, active, a);
      if r.Some? {
        LoadShows(s, layout, k, mmu.vm, a);
        sys := Step(s, layout, Event.Load(a)).value;
        SeenReads(sys, layout, Now(), a, r.value);
      }
    }

    // A store of the running process, at an address of its own.
    method Store(a: nat, b: Byte) returns (ok: bool)
      requires Valid() && Enabled(sys, layout, Event.Store(a, b))
      modifies this`sys, mmu`ram, mmu`vm, mmu.cowPage, mmu.frames, mmu.frames.pageList
      ensures Inv(old(sys), layout) && (ok <==> Step(old(sys), layout, Event.Store(a, b)).Some?)
      ensures ok ==> Valid() && Step(old(sys), layout, Event.Store(a, b)) == Some(sys)
    {
      hide VmaHeap.Valid, Mmu.Valid, Shows, Enabled, Private, Canonical, Access, Fails, Step, StoreByte;
      ghost var s, k := sys, Now();
      ShowsInv(s, layout, k);
      BeforeStore(s, layout, k, a, b);
      ok := UserStore(mmu, heap, active, a, b);
      if ok {
        StoreShows(s, layout, k, Access(k.vm, k.space, k.areas[k.active], a, true).value, a, b);
        sys := Step(s, layout, Event.Store(a, b)).value;
      }
    }

    // mmap of the running process.
    method Mmap(length: nat) returns (start: nat)
      requires Valid() && Enabled(sys, layout, Event.Mmap(length))
      modifies this`sys, this`slots, heap`nodes, heap`recycleList, heap`shape, heap.heads
      ensures Inv(old(sys), layout) && Valid() && Step(old(sys), layout, Event.Mmap(length)) == Some(sys)
      ensures old(sys.active in sys.tasks) && start == old(sys.tasks[sys.active].heapTop)
      ensures sys.active == old(sys.active) && sys.active in sys.tasks
      ensures sys.tasks[sys.active].heapTop == start + (length + 4095) / 4096 * 4096
      ensures sys.tasks[sys.active].areas == old(sys.tasks[sys.active].areas) + [Vma(start, start + length - 1)]
    {
      hide VmaHeap.Valid, Mmu.Valid, Shows, Enabled, Step, AreasOf, AfterMmap, Mapping;
      ghost var s, k := sys, Now();
      ShowsInv(s, layout, k);
      Bounds.MmapIs(s, layout, length);
      BeforeMmap(s, layout, k, length);
      AreasAre();
      var newTop: nat;
      start, newTop := KMmap(heap, active, slots[active].heapTop, length);
      slots := slots[active := slots[active].(heapTop := newTop)];
      AreasAre();
      MmapShows(s, layout, k, length, Now(), newTop);
      sys := Step(s, layout, Event.Mmap(length)).value;
    }

    // munmap of the running process.
    method Munmap(a: nat, length: nat) returns (ok: bool)
      requires Valid() && Enabled(sys, layout, Event.Munmap(a, length))
      modifies this`sys, mmu`ram, mmu`vm, mmu.frames, mmu.frames.pageList
      modifies heap`nodes, heap`recycleList, heap`shape, heap.heads
      ensures Inv(old(sys), layout) && (ok <==> Step(old(sys), layout, Event.Munmap(a, length)).Some?)
      ensures ok ==> Valid() && Step(old(sys), layout, Event.Munmap(a, length)) == Some(sys)
    {
      hide VmaHeap.Valid, Mmu.Valid, Shows, Enabled, Step, AreasOf, AreasOk, UnmapPages, Counted, WellFormed, Without;
      ghost var s, k := sys, Now();
      ShowsInv(s, layout, k);
      BeforeMunmap(s, layout, k, a, length);
      AreasAre();
      ok := KMunmap(mmu, heap, active, a, length);
      if ok {
        AreasAre();
        MunmapShows(s, layout, k, a, length, Now());
        sys := Step(s, layout, Event.Munmap(a, length)).value;
      }
    }

    // The end of the running process: its areas are released.
    method Exit()
      requires Valid() && Enabled(sys, layout, Event.Exit)
      modifies this`sys, this`slots, mmu`ram, mmu`vm, mmu.frames, mmu.frames.pageList
      modifies heap`nodes, heap`recycleList, heap`shape, heap.heads
      ensures Inv(old(sys), layout) && Valid() && Step(old(sys), layout, Event.Exit) == Some(sys)
    {
      hide VmaHeap.Valid, Mmu.Valid, Shows, Step, AreasOf, AreasOk, ReleaseAreas, Counted, WellFormed;
      ghost var s, k := sys, Now();
      ShowsInv(s, layout, k);
      BeforeRelease(s, layout, k);
      AreasAre();
      slots := slots[active := slots[active].(cr3 := 0)];
      ReleaseAll(mmu, heap, active);
      AreasAre();
      ExitShows(s, layout, k, Now());
      sys := Step(s, layout, Event.Exit).value;
    }

    // The processor goes to the process in a slot.
    method Switch(slot: nat, ghost pid: nat)
      requires Valid() && Enabled(sys, layout, Event.Switch(pid)) && slot == sys.tasks[pid].slot
      modifies this`sys, this`active, mmu`cr3, mmu`space
      ensures Inv(old(sys), layout) && Valid() && Step(old(sys), layout, Event.Switch(pid)) == Some(sys)
    {
      hide VmaHeap.Valid, Mmu.Valid, Shows, Enabled, Step, AreasOf;
      ghost var s, k := sys, Now();
      ShowsInv(s, layout, k);
      SwitchShows(s, layout, k, slot, pid);
      ChangePtable(mmu, slots[slot].cr3, pid);
      active := slot;
      sys := Step(s, layout, Event.Switch(pid)).value;
    }

    // The kernel touches a page of its own for the first time.
    method Touch(addr: nat) returns (ok: bool)
      requires Valid() && Upper(addr) && Enabled(sys, layout, KernelMap(PageOf(addr)))
      modifies this`sys, mmu`ram, mmu`vm, mmu.frames, mmu.frames.pageList
      ensures Inv(old(sys), layout) && (ok <==> Step(old(sys), layout, KernelMap(PageOf(addr))).Some?)
      ensures ok ==> Valid() && Step(old(sys), layout, KernelMap(PageOf(addr))) == Some(sys)
    {
      hide VmaHeap.Valid, Mmu.Valid, Shows, Enabled, Step, AreasOf, MapPage, Reachable, PageIn, PageOf, HwPml4, Canonical, Upper;
      ghost var s, k := sys, Now();
      ShowsInv(s, layout, k);
      BeforeTouch(s, layout, k, addr);
      ok := KernelFault(mmu, addr);
      if ok {
        TouchShows(s, layout, k, PageOf(addr), mmu.vm);
        sys := Step(s, layout, KernelMap(PageOf(addr))).value;
      }
    }

    // A store through entry 511, to a kernel page that shows no table.
    method StoreShared(a: nat, b: Byte)
      requires Valid() && Enabled(sys, layout, KernelStore(a, b))
      modifies this`sys, mmu`ram, mmu`vm
      ensures Inv(old(sys), layout) && Valid() && Step(old(sys), layout, KernelStore(a, b)) == Some(sys)
    {
      hide VmaHeap.Valid, Shows, Enabled, Step, AreasOf, PageOf, OffsetOf, Upper, Coupled, Translate, KernelStored;
      hide PhysicalMemoryManager.Valid, PhysicalMemoryManager.View;
      ghost var s, k := sys, Now();
      ShowsInv(s, layout, k);
      SharedHits(s, layout, k, mmu.ram, a, b);
      SharedShows(s, layout, k, a, b);
      mmu.WriteByte(a, b);
      mmu.vm := KernelStored(mmu.vm, a, b);
      sys := Step(s, layout, KernelStore(a, b)).value;
    }

    // The address of the kernel page at which the top-level table of a slot is filled in.
    function TableAddressOf(slot: nat): (va: nat)
      ensures slot <= layout.upml4 ==> va + 4096 * slot == 0xFFFF_0000_0000_0000 + 4096 * layout.upml4
    {
      0xFFFF_0000_0000_0000 + layout.Alias(slot) * 4096
    }

    // The address space of a new process in a slot.
    method AddressSpace(slot: nat) returns (top: Option<nat>)
      requires Valid() && Running(sys) && SlotFree(sys, layout, slot)
      modifies mmu`ram, mmu`vm, mmu.frames, mmu.frames.pageList
      ensures Inv(sys, layout) && (top.Some? <==> NewSpace(sys, layout, slot).Some?)
      ensures top.Some? ==>
        && mmu.Valid() && Agree(NewSpace(sys, layout, slot).value, mmu.vm, layout)
        && Top(sys.nextPid) in mmu.vm.tables && top.value == 4096 * mmu.vm.tables[Top(sys.nextPid)]
    {
      hide VmaHeap.Valid, Shows, AreasOf, WellFormed, Adoptable, Canonical, PageOf, Agree, AddSpace, Running;
      hide Coupled, PhysicalMemoryManager.Valid, PhysicalMemoryManager.View, Forgotten, FilledAt;
      hide UserDataSame, SlotFree, NewSpace, Layout.Alias;
      ghost var k, dead := Now(), LastOwner(sys, slot);
      ShowsInv(sys, layout, k);
      SpaceReady(sys, layout, k, mmu.ram, slot, TableAddressOf(slot));
      ghost var f := Forgotten(k.vm, mmu.ram, dead);
      top := MapPageTable(mmu, TableAddressOf(slot), dead, sys.nextPid);
      if top.None? {
        SpaceNot(sys, layout, slot, f);
      } else {
        SpaceMade(sys, layout, slot, f, mmu.vm);
      }
    }

    // fork: the address space of the child, and its areas, shared with the running process.
    method Fork(slot: nat) returns (ok: bool)
      requires Valid() && Enabled(sys, layout, Event.Fork(slot))
      modifies this`sys, this`slots, this`active, this`nextPid, mmu`ram, mmu`vm, mmu`cr3, mmu`space
      modifies mmu.frames, mmu.frames.pageList, heap`nodes, heap`recycleList, heap`shape, heap.heads
      ensures Inv(old(sys), layout) && (ok <==> Step(old(sys), layout, Event.Fork(slot)).Some?)
      ensures ok ==> Valid() && Step(old(sys), layout, Event.Fork(slot)) == Some(sys)
    {
      hide VmaHeap.Valid, Shows, Enabled, Step, AreasOf, WellFormed, Agree, CopyAreas, Injective, Bounded, Coupled;
      hide PhysicalMemoryManager.Valid, PhysicalMemoryManager.View, SlotFree, NewSpace;
      ghost var s, k, child := sys, Now(), sys.nextPid;
      ShowsInv(s, layout, k);
      ForkNeeds(s, layout, slot);
      AreasAre();
      var top := AddressSpace(slot);
      if top.None? {
        ForkNot(s, layout, slot);
        return false;
      }
      ghost var w := mmu.vm;
      BeforeCopy(s, layout, k, slot, w);
      ok := CopyVma(mmu, heap, active, slot, top.value, slots[active].cr3, child);
      if ok {
        slots := slots[slot := Slot(nextPid, top.value, slots[active].heapTop)];
        ChildTop(w, mmu.vm, s.active, child, k.areas[active]);
        ChangePtable(mmu, top.value, child);
        active, nextPid := slot, nextPid + 1;
        AreasAre();
        ForkShows(s, layout, k, slot, w, Now());
        sys := Step(s, layout, Event.Fork(slot)).value;
      } else {
        CopyNot(s, layout, k, slot, w);
      }
    }

    // exec: the address space of the image, loaded through its own addresses.
    method Exec(slot: nat, areas: seq<Vma>, heapTop: nat, image: seq<(nat, Frame)>) returns (ok: bool)
      requires Valid() && Enabled(sys, layout, Event.Exec(slot, areas, heapTop, image))
      modifies this`sys, this`slots, this`active, this`nextPid, mmu`ram, mmu`vm, mmu`cr3, mmu`space
      modifies mmu.frames, mmu.frames.pageList, heap`nodes, heap`recycleList, heap`shape, heap.heads
      ensures Inv(old(sys), layout) && (ok <==> Step(old(sys), layout, Event.Exec(slot, areas, heapTop, image)).Some?)
      ensures ok ==> Valid() && Step(old(sys), layout, Event.Exec(slot, areas, heapTop, image)) == Some(sys)
    {
      hide VmaHeap.Valid, Shows, Enabled, Step, AreasOf, WellFormed, Agree, LoadImage, Unmapped, ImageOk, AreasOk, Mmu.Valid;
      hide SlotFree, NewSpace;
      ghost var s, k, child := sys, Now(), sys.nextPid;
      ShowsInv(s, layout, k);
      ExecNeeds(s, layout, slot, areas, heapTop, image);
      AreasAre();
      var top := AddressSpace(slot);
      if top.None? {
        ExecNot(s, layout, slot, areas, heapTop, image);
        return false;
      }
      ghost var w := mmu.vm;
      BeforeImage(s, layout, k, slot, w, image);
      ChangePtable(mmu, top.value, child);
      ok := LoadPages(mmu, image);
      if ok {
        AddAreas(heap, slot, areas);
        ImageTop(w, mmu.vm, child, image);
        slots := slots[slot := Slot(nextPid, top.value, heapTop)];
        active, nextPid := slot, nextPid + 1;
        AreasAre();
        ExecShows(s, layout, k, slot, areas, heapTop, image, w, Now());
        sys := Step(s, layout, Event.Exec(slot, areas, heapTop, image)).value;
      } else {
        ImageNot(s, layout, slot, areas, heapTop, image, w);
      }
    }
  }

  // ---------------------------------------------------------------- what is shown

  lemma ShowsInv(s: Sys, l: Layout, k: State)
    requires Shows(s, l, k)
    ensures Inv(s, l)
  {
  }

  lemma AgreeOf(s: Sys, l: Layout, k: State)
    requires Shows(s, l, k)
    ensures Agree(s.vm, k.vm, l) && k.vm == s.vm.(data := k.vm.data)
  {
    AgreeShape(s.vm, k.vm, l);
  }

  // Memory changes inside a space, or in pages of the kernel.
  lemma VmShows(s: Sys, l: Layout, k: State, u: Vm, w: Vm)
    requires Shows(s, l, k) && Inv(s.(vm := u), l) && Agree(u, w, l) && TopsSame(s.vm, u)
    ensures Shows(s.(vm := u), l, k.(vm := w))
  {
    hide Inv, Agree;
    var t := s.(vm := u);
    forall p {:trigger t.tasks[p]} | p in t.tasks && t.tasks[p].live
      ensures Entered(t.tasks[p], p, k.slots, u.tables)
    {
      assert Entered(s.tasks[p], p, k.slots, s.vm.tables);
    }
  }

  // The running process may touch its own addresses, and a handler that fails, fails.
  lemma BeforeAccess(s: Sys, l: Layout, k: State, a: nat, write: bool)
    requires Shows(s, l, k) && Running(s) && Private(a)
    ensures k.active < |k.areas| && k.areas[k.active] == s.tasks[s.active].areas && k.space == s.active
    ensures Canonical(a) && WellFormed(s.vm) && InUse(s.vm, s.active) && WellFormed(k.vm) && InUse(k.vm, k.space)
    ensures Access(s.vm, s.active, s.tasks[s.active].areas, a, write).None?
         <==> Fails(k.vm, k.space, k.areas[k.active], a, write)
    ensures Alike(Access(s.vm, s.active, s.tasks[s.active].areas, a, write),
                  Access(k.vm, k.space, k.areas[k.active], a, write), l)
  {
    ActiveInUse(s, l);
    AgreeWellFormed(s.vm, k.vm, l);
    PrivateIff(a);
    AccessAgree(s.vm, k.vm, l, s.active, s.tasks[s.active].areas, a, write);
    hide WellFormed, Counted, Owned, AliasesOk, KernelOk, Private, Canonical, Access, Fails, HwPml4, Agree;
    AccessFailsIff(k.vm, k.space, k.areas[k.active], a, write);
  }

  lemma BeforeLoad(s: Sys, l: Layout, k: State, a: nat)
    requires Shows(s, l, k) && Inv(s, l) && Enabled(s, l, Event.Load(a))
    ensures Private(a) && Canonical(a) && WellFormed(k.vm) && InUse(k.vm, k.space) && k.space == s.active != KERNEL
    ensures k.active < |k.areas| && Step(s, l, Event.Load(a)).None? == Fails(k.vm, k.space, k.areas[k.active], a, false)
  {
    hide Inv, Shows, WellFormed, Private, Canonical, Fails, Access;
    BeforeAccess(s, l, k, a, false);
  }

  // What the state machine makes of a load.
  lemma LoadStep(s: Sys, l: Layout, a: nat)
    requires Inv(s, l) && Enabled(s, l, Event.Load(a)) && Step(s, l, Event.Load(a)).Some?
    ensures InUse(s.vm, s.active) && WellFormed(s.vm) && Inv(Step(s, l, Event.Load(a)).value, l)
    ensures var r := Access(s.vm, s.active, s.tasks[s.active].areas, a, false);
            && r.Some? && TopsSame(s.vm, r.value) && Step(s, l, Event.Load(a)).value == s.(vm := r.value)
  {
    hide Inv, WellFormed, Private, Access, TopsSame, Counted, Owned, Undisturbed, AreasOk, Bounded, Permitted;
    StepInv(s, l, Event.Load(a));
    AccessKeeps(s, l, a, false);
    ActiveInUse(s, l);
  }

  lemma LoadShows(s: Sys, l: Layout, k: State, w: Vm, a: nat)
    requires Shows(s, l, k) && Inv(s, l) && Enabled(s, l, Event.Load(a)) && WellFormed(k.vm) && InUse(k.vm, k.space)
    requires Private(a) && k.active < |k.areas| && Access(k.vm, k.space, k.areas[k.active], a, false) == Some(w)
    requires Step(s, l, Event.Load(a)).Some?
    ensures Shows(Step(s, l, Event.Load(a)).value, l, k.(vm := w)) && Step(s, l, Event.Load(a)).value.active == s.active
  {
    hide Inv, Shows, WellFormed, Private, Canonical, Fails, Access, TopsSame, Agree, InUse, Step;
    BeforeAccess(s, l, k, a, false);
    LoadStep(s, l, a);
    hide Enabled;
    VmShows(s, l, k, Access(s.vm, s.active, s.tasks[s.active].areas, a, false).value, w);
  }

  lemma SeenReads(s: Sys, l: Layout, k: State, a: nat, b: Byte)
    requires Shows(s, l, k) && View(k.vm, s.active, a) == Some(b) && s.active != KERNEL
    ensures Reads(s.vm, s.active, a, b)
  {
  }

  lemma BeforeStore(s: Sys, l: Layout, k: State, a: nat, b: Byte)
    requires Shows(s, l, k) && Inv(s, l) && Enabled(s, l, Event.Store(a, b))
    ensures Private(a) && Canonical(a) && WellFormed(k.vm) && InUse(k.vm, k.space) && k.space == s.active != KERNEL
    ensures k.active < |k.areas| && Step(s, l, Event.Store(a, b)).None? == Fails(k.vm, k.space, k.areas[k.active], a, true)
  {
    hide Inv, Shows, WellFormed, Private, Canonical, Fails, Access;
    BeforeAccess(s, l, k, a, true);
  }

  // What the state machine makes of it.
  lemma StoreStep(s: Sys, l: Layout, a: nat, b: Byte)
    requires Inv(s, l) && Enabled(s, l, Event.Store(a, b)) && Step(s, l, Event.Store(a, b)).Some?
    ensures InUse(s.vm, s.active) && WellFormed(s.vm) && Inv(Step(s, l, Event.Store(a, b)).value, l)
    ensures var r := Access(s.vm, s.active, s.tasks[s.active].areas, a, true);
            && r.Some? && UserPage(s.active, a) in r.value.pages && r.value.pages[UserPage(s.active, a)].frame < |r.value.data|
            && Step(s, l, Event.Store(a, b)).value == s.(vm := StoreByte(r.value, s.active, a, b))
            && TopsSame(s.vm, StoreByte(r.value, s.active, a, b))
  {
    StepInv(s, l, Event.Store(a, b));
    AccessKeeps(s, l, a, true);
    hide Inv, WellFormed, Private, Access, TopsSame, Counted, Owned, Undisturbed, PageOf, AreasOk, Bounded, OffsetOf;
    ActiveInUse(s, l);
    var u := Access(s.vm, s.active, s.tasks[s.active].areas, a, true).value;
    SameTops(s.vm, u, StoreByte(u, s.active, a, b));
  }

  lemma StoreShows(s: Sys, l: Layout, k: State, x: Vm, a: nat, b: Byte)
    requires Shows(s, l, k) && Inv(s, l) && Enabled(s, l, Event.Store(a, b)) && WellFormed(k.vm) && InUse(k.vm, k.space)
    requires Private(a) && k.active < |k.areas| && Access(k.vm, k.space, k.areas[k.active], a, true) == Some(x)
    ensures Step(s, l, Event.Store(a, b)).Some? && UserPage(k.space, a) in x.pages
    ensures x.pages[UserPage(k.space, a)].frame < |x.data|
    ensures Shows(Step(s, l, Event.Store(a, b)).value, l, k.(vm := StoreByte(x, k.space, a, b)))
  {
    hide Inv, Shows, WellFormed, Private, Canonical, Fails, Access, TopsSame, Agree, Permitted, StoreByte, PageOf;
    BeforeAccess(s, l, k, a, true);
    assert Step(s, l, Event.Store(a, b)).Some?;
    StoreStep(s, l, a, b);
    hide Step, Enabled;
    var u := Access(s.vm, s.active, s.tasks[s.active].areas, a, true).value;
    ByteAgree(u, x, l, s.active, a, b);
    VmShows(s, l, k, StoreByte(u, s.active, a, b), StoreByte(x, k.space, a, b));
  }

  lemma ByteAgree(u: Vm, x: Vm, l: Layout, q: nat, a: nat, b: Byte)
    requires Agree(u, x, l) && q != KERNEL && UserPage(q, a) in u.pages && u.pages[UserPage(q, a)].frame < |u.data|
    ensures UserPage(q, a) in x.pages && x.pages[UserPage(q, a)].frame < |x.data|
    ensures Agree(StoreByte(u, q, a, b), StoreByte(x, q, a, b), l) && StoreByte(u, q, a, b).tables == u.tables
  {
    AgreeShape(u, x, l);
    NotShadow(l, UserPage(q, a));
    hide Agree, Shadow, PageOf;
    WrittenAgree(u, x, l, UserPage(q, a), OffsetOf(a), b);
  }

  lemma SameTops(vm: Vm, u: Vm, w: Vm)
    requires TopsSame(vm, u) && w.tables == u.tables
    ensures TopsSame(vm, w)
  {
  }

  // The running process, and with it its entry and its areas, changes.
  lemma TaskShows(s: Sys, l: Layout, k: State, t: Task, u: Vm, m: State, active: nat)
    requires Shows(s, l, k) && Running(s) && t.slot == s.tasks[s.active].slot
    requires Inv(s.(vm := u, tasks := s.tasks[s.active := t], active := active), l) && Agree(u, m.vm, l) && TopsSame(s.vm, u)
    requires m.space == k.space && m.active == k.active && m.nextPid == k.nextPid
    requires |m.slots| == |k.slots| && |m.areas| == |k.areas| && k.active < |k.areas| && m.areas[k.active] == t.areas
    requires k.active < |k.slots| && m.slots[k.active].pid == k.slots[k.active].pid
    requires forall i {:trigger m.slots[i]} :: 0 <= i < |k.slots| && i != k.active ==> m.slots[i] == k.slots[i]
    requires forall i {:trigger m.areas[i]} :: 0 <= i < |k.areas| && i != k.active ==> m.areas[i] == k.areas[i]
    requires if t.live then active == s.active && Entered(t, s.active, m.slots, u.tables) else active == 0 && t.areas == []
    ensures Shows(s.(vm := u, tasks := s.tasks[s.active := t], active := active), l, m)
  {
    OneSlot(s, l, k);
    hide Inv, Agree;
    TaskTable(s, l, k, t, u, m, active);
  }

  lemma TaskTable(s: Sys, l: Layout, k: State, t: Task, u: Vm, m: State, active: nat)
    requires TableShows(s, l, k) && Running(s) && TopsSame(s.vm, u) && t.slot == s.tasks[s.active].slot == k.active
    requires m.space == k.space && m.active == k.active && m.nextPid == k.nextPid && 0 !in s.tasks
    requires |m.slots| == |k.slots| && |m.areas| == |k.areas| && k.active < |k.areas| && m.areas[k.active] == t.areas
    requires k.active < |k.slots| && m.slots[k.active].pid == k.slots[k.active].pid
    requires forall i {:trigger m.slots[i]} :: 0 <= i < |k.slots| && i != k.active ==> m.slots[i] == k.slots[i]
    requires forall i {:trigger m.areas[i]} :: 0 <= i < |k.areas| && i != k.active ==> m.areas[i] == k.areas[i]
    requires if t.live then active == s.active && Entered(t, s.active, m.slots, u.tables) else active == 0 && t.areas == []
    requires k.active in s.owner && s.owner[k.active] == s.active
    requires forall p {:trigger s.tasks[p]} :: p in s.tasks && s.tasks[p].live && p != s.active ==> s.tasks[p].slot != k.active
    requires forall i {:trigger s.owner[i]} :: i in s.owner && i != k.active ==> s.owner[i] != s.active
    ensures TableShows(s.(vm := u, tasks := s.tasks[s.active := t], active := active), l, m)
  {
    var n := s.(vm := u, tasks := s.tasks[s.active := t], active := active);
    hide TopsSame, Entered;
    forall p {:trigger n.tasks[p]} | p in n.tasks && n.tasks[p].live
      ensures Entered(n.tasks[p], p, m.slots, u.tables)
    {
      if p != s.active {
        assert Entered(s.tasks[p], p, k.slots, s.vm.tables);
        EnteredKept(s.tasks[p], p, k.slots, m.slots, k.active, s.vm, u);
      }
    }
    forall i {:trigger m.areas[i]} | 0 <= i < |m.areas|
      ensures m.areas[i] == SlotAreas(n, i)
    {
      assert i != k.active ==> m.areas[i] == k.areas[i] == SlotAreas(s, i);
    }
    forall i {:trigger m.slots[i]} | 0 <= i < |m.slots|
      ensures m.slots[i].pid == SlotPid(n, i)
    {
      assert k.slots[i].pid == SlotPid(s, i) && m.slots[i].pid == k.slots[i].pid;
    }
  }

  lemma EnteredKept(t: Task, p: nat, slots: seq<Slot>, more: seq<Slot>, changed: nat, vm: Vm, u: Vm)
    requires Entered(t, p, slots, vm.tables) && TopsSame(vm, u) && t.slot != changed && |more| == |slots|
    requires forall i {:trigger more[i]} :: 0 <= i < |slots| && i != changed ==> more[i] == slots[i]
    ensures Entered(t, p, more, u.tables)
  {
  }

  // No two live processes have one slot, and 0 is nobody.
  lemma OneSlot(s: Sys, l: Layout, k: State)
    requires Shows(s, l, k) && Running(s)
    ensures k.active == s.tasks[s.active].slot && k.active in s.owner && s.owner[k.active] == s.active && 0 !in s.tasks
    ensures k.active < |k.areas| == |k.slots| && k.areas[k.active] == s.tasks[s.active].areas
    ensures Entered(s.tasks[s.active], s.active, k.slots, s.vm.tables) && k.space == s.active && k.nextPid == s.nextPid
    ensures forall p {:trigger s.tasks[p]} :: p in s.tasks && s.tasks[p].live && p != s.active ==> s.tasks[p].slot != k.active
    ensures forall i {:trigger s.owner[i]} :: i in s.owner && i != k.active ==> s.owner[i] != s.active
  {
    hide WellFormed, Counted, Owned, AliasesOk, KernelOk, Agree;
    assert k.areas[k.active] == SlotAreas(s, k.active);
  }

  lemma BeforeMmap(s: Sys, l: Layout, k: State, length: nat)
    requires Shows(s, l, k) && Inv(s, l) && Enabled(s, l, Event.Mmap(length))
    ensures k.active < |k.areas| == |k.slots| && s.active in s.tasks
    ensures k.slots[k.active].heapTop == s.tasks[s.active].heapTop > 0
  {
    OneSlot(s, l, k);
    hide WellFormed, Counted, Owned, AliasesOk, KernelOk, Shows;
  }

  lemma MmapShows(s: Sys, l: Layout, k: State, length: nat, m: State, newTop: nat)
    requires Shows(s, l, k) && Inv(s, l) && Enabled(s, l, Event.Mmap(length)) && k.active < |k.areas| == |k.slots|
    requires k.slots[k.active].heapTop > 0 && |m.areas| == |k.areas|
    requires m == k.(slots := k.slots[k.active := k.slots[k.active].(heapTop := newTop)], areas := m.areas)
    requires forall slot: nat :: AfterMmap(Task(slot, k.areas[k.active], k.slots[k.active].heapTop, true), length)
                              == Task(slot, m.areas[k.active], newTop, true)
    requires forall i {:trigger m.areas[i]} :: 0 <= i < |k.areas| && i != k.active ==> m.areas[i] == k.areas[i]
    ensures Step(s, l, Event.Mmap(length)).Some? && Shows(Step(s, l, Event.Mmap(length)).value, l, m)
  {
    StepInv(s, l, Event.Mmap(length));
    OneSlot(s, l, k);
    hide Inv, Shows, AfterMmap, Mapping, StepFork, StepExec, StepLoad, StepStore, StepMunmap, StepExit, StepKernelMap;
    var t := AfterMmap(s.tasks[s.active], length);
    assert t == Task(s.tasks[s.active].slot, m.areas[k.active], newTop, true);
    TaskShows(s, l, k, t, s.vm, m, s.active);
  }

  lemma BeforeMunmap(s: Sys, l: Layout, k: State, a: nat, length: nat)
    requires Shows(s, l, k) && Inv(s, l) && Enabled(s, l, Event.Munmap(a, length))
    ensures k.active < |k.areas| && Counted(k.vm) && AreasOk(k.areas[k.active]) && k.space == s.active != KERNEL
    ensures Step(s, l, Event.Munmap(a, length)).None? <==> FirstCover(k.areas[k.active], a, a + length) == |k.areas[k.active]|
  {
    hide Inv, Agree, Shows, UnmapPages, AreasOk, Bounded, Counted, WellFormed;
    BeforeRelease(s, l, k);
  }

  // The running process has its areas, and they may be unmapped.
  lemma BeforeRelease(s: Sys, l: Layout, k: State)
    requires Shows(s, l, k) && Inv(s, l) && Running(s)
    ensures k.active < |k.areas| == |k.slots| && k.areas[k.active] == s.tasks[s.active].areas
    ensures Counted(k.vm) && AreasOk(k.areas[k.active]) && k.space == s.active != KERNEL
  {
    hide Inv, Agree, Shows, AreasOk, Bounded, Counted, WellFormed, Entered;
    ActiveInUse(s, l);
    OneSlot(s, l, k);
    AgreeOf(s, l, k);
    AgreeWellFormed(s.vm, k.vm, l);
  }

  lemma MunmapStep(s: Sys, l: Layout, a: nat, length: nat)
    requires Inv(s, l) && Enabled(s, l, Event.Munmap(a, length)) && Step(s, l, Event.Munmap(a, length)).Some?
    ensures WellFormed(s.vm) && Counted(s.vm) && s.active != KERNEL
    ensures var t := s.tasks[s.active]; var i := FirstCover(t.areas, a, a + length);
            && i < |t.areas|
            && var u := UnmapPages(s.vm, s.active, AreaFirst(t.areas[i]), UnmapLimit(t.areas[i]));
            && TopsSame(s.vm, u)
            && Step(s, l, Event.Munmap(a, length)).value
                 == s.(vm := u, tasks := s.tasks[s.active := t.(areas := Without(t.areas, i))])
            && Inv(Step(s, l, Event.Munmap(a, length)).value, l)
  {
    StepInv(s, l, Event.Munmap(a, length));
    ActiveInUse(s, l);
    hide Inv, WellFormed, Counted, UnmapPages, Without, TopsSame, AreaFirst, UnmapLimit, AreasOk, Bounded;
    var t := s.tasks[s.active];
    var i := FirstCover(t.areas, a, a + length);
    TopsOfTables(s.vm, UnmapPages(s.vm, s.active, AreaFirst(t.areas[i]), UnmapLimit(t.areas[i])));
  }

  lemma MunmapShows(s: Sys, l: Layout, k: State, a: nat, length: nat, m: State)
    requires Shows(s, l, k) && Inv(s, l) && Enabled(s, l, Event.Munmap(a, length)) && k.active < |k.areas|
    requires Step(s, l, Event.Munmap(a, length)).Some?
    requires WellFormed(k.vm) && Counted(k.vm) && k.space != KERNEL && |m.areas| == |k.areas|
    requires var was := k.areas[k.active]; var i := FirstCover(was, a, a + length);
             && i < |was| && m == k.(vm := UnmapPages(k.vm, k.space, AreaFirst(was[i]), UnmapLimit(was[i])), areas := m.areas)
             && m.areas[k.active] == Without(was, i)
    requires forall i {:trigger m.areas[i]} :: 0 <= i < |k.areas| && i != k.active ==> m.areas[i] == k.areas[i]
    ensures Shows(Step(s, l, Event.Munmap(a, length)).value, l, m)
  {
    MunmapStep(s, l, a, length);
    OneSlot(s, l, k);
    AgreeOf(s, l, k);
    hide Inv, Agree, Shows, WellFormed, Counted, UnmapPages, Without, TopsSame, AreaFirst, UnmapLimit, Step, Enabled;
    var t := s.tasks[s.active];
    var i := FirstCover(t.areas, a, a + length);
    UnmapPagesAgree(s.vm, k.vm, l, s.active, AreaFirst(t.areas[i]), UnmapLimit(t.areas[i]));
    TaskShows(s, l, k, t.(areas := Without(t.areas, i)),
              UnmapPages(s.vm, s.active, AreaFirst(t.areas[i]), UnmapLimit(t.areas[i])), m, s.active);
  }

  lemma ExitStep(s: Sys, l: Layout)
    requires Inv(s, l) && Enabled(s, l, Event.Exit)
    ensures WellFormed(s.vm) && Counted(s.vm) && s.active != KERNEL && Step(s, l, Event.Exit).Some?
    ensures var t := s.tasks[s.active]; var u := ReleaseAreas(s.vm, s.active, t.areas);
            && TopsSame(s.vm, u)
            && Step(s, l, Event.Exit).value
                 == s.(vm := u, tasks := s.tasks[s.active := t.(areas := [], live := false)], active := 0)
            && Inv(Step(s, l, Event.Exit).value, l)
  {
    StepInv(s, l, Event.Exit);
    ActiveInUse(s, l);
    hide Inv, WellFormed, Counted, ReleaseAreas, TopsSame, AreasOk, Bounded;
    TopsOfTables(s.vm, ReleaseAreas(s.vm, s.active, s.tasks[s.active].areas));
  }

  lemma ExitShows(s: Sys, l: Layout, k: State, m: State)
    requires Shows(s, l, k) && Inv(s, l) && Enabled(s, l, Event.Exit) && k.active < |k.areas| == |k.slots|
    requires WellFormed(k.vm) && Counted(k.vm) && k.space != KERNEL && |m.areas| == |k.areas|
    requires m == k.(vm := ReleaseAreas(k.vm, k.space, k.areas[k.active]), areas := m.areas,
                     slots := k.slots[k.active := k.slots[k.active].(cr3 := 0)])
    requires forall i {:trigger m.areas[i]} :: 0 <= i < |k.areas| ==> m.areas[i] == if i == k.active then [] else k.areas[i]
    ensures Step(s, l, Event.Exit).Some? && Shows(Step(s, l, Event.Exit).value, l, m)
  {
    ExitStep(s, l);
    OneSlot(s, l, k);
    AgreeOf(s, l, k);
    hide Inv, Agree, Shows, WellFormed, Counted, ReleaseAreas, TopsSame, Step, Enabled;
    var t := s.tasks[s.active];
    ReleaseAgree(s.vm, k.vm, l, s.active, t.areas);
    TaskShows(s, l, k, t.(areas := [], live := false), ReleaseAreas(s.vm, s.active, t.areas), m, 0);
  }

  lemma SwitchShows(s: Sys, l: Layout, k: State, slot: nat, pid: nat)
    requires Shows(s, l, k) && Inv(s, l) && Enabled(s, l, Event.Switch(pid)) && slot == s.tasks[pid].slot
    ensures Top(pid) in k.vm.tables && slot < |k.slots| && k.slots[slot].cr3 == 4096 * k.vm.tables[Top(pid)]
    ensures Step(s, l, Event.Switch(pid)).Some?
    ensures Shows(Step(s, l, Event.Switch(pid)).value, l, k.(space := pid, active := slot))
  {
    hide Inv, Agree, StepFork, StepExec, StepLoad, StepStore, StepMunmap, StepExit, StepKernelMap, KernelStored, AfterMmap;
    StepInv(s, l, Event.Switch(pid));
    AgreeOf(s, l, k);
    assert Entered(s.tasks[pid], pid, k.slots, s.vm.tables);
  }

  lemma BeforeTouch(s: Sys, l: Layout, k: State, addr: nat)
    requires Shows(s, l, k) && Inv(s, l) && Upper(addr) && Enabled(s, l, KernelMap(PageOf(addr)))
    ensures Canonical(addr) && HwPml4(addr) == KERNEL_SLOT && WellFormed(k.vm)
    ensures Reachable(k.vm, k.space, PageOf(addr)) && PageIn(k.space, PageOf(addr)) !in k.vm.pages
    ensures Reachable(k.vm, KERNEL, PageOf(addr))
    ensures Step(s, l, KernelMap(PageOf(addr))).None? == MapPage(k.vm, KERNEL, PageOf(addr)).None?
  {
    hide Inv, Shows, Agree, MapPage, Reachable, PageOf, HwPml4, Canonical, Upper, PageIn, WellFormed, Layout.IsAlias, Step;
    UpperIff(addr);
    AgreeOf(s, l, k);
    WellFormedOf(s, l);
    AgreeWellFormed(s.vm, k.vm, l);
    TouchAgree(s, l, k, PageOf(addr));
    KernelPath(k.vm, k.space, PageOf(addr));
  }

  lemma TouchIs(s: Sys, l: Layout, n: nat)
    requires Inv(s, l) && Enabled(s, l, KernelMap(n))
    ensures Reachable(s.vm, KERNEL, n) && WellFormed(s.vm)
    ensures Step(s, l, KernelMap(n))
         == if MapPage(s.vm, KERNEL, n).None? then None else Some(s.(vm := MapPage(s.vm, KERNEL, n).value))
  {
    hide Inv, MapPage, Reachable, WellFormed, Layout.IsAlias, StepFork, StepExec, StepLoad, StepStore, StepMunmap, StepExit;
    hide AfterMmap, KernelStored;
    WellFormedOf(s, l);
    AliasReachable(s.vm, n);
  }

  lemma TouchAgree(s: Sys, l: Layout, k: State, n: nat)
    requires Shows(s, l, k) && Inv(s, l) && WellFormed(k.vm) && Enabled(s, l, KernelMap(n))
    ensures Reachable(s.vm, KERNEL, n) && Reachable(k.vm, KERNEL, n) && WellFormed(s.vm)
    ensures Alike(MapPage(s.vm, KERNEL, n), MapPage(k.vm, KERNEL, n), l)
    ensures Step(s, l, KernelMap(n)).None? == MapPage(k.vm, KERNEL, n).None?
  {
    hide Inv, Shows, Agree, MapPage, Reachable, Layout.IsAlias, WellFormed, Step, PageIn;
    TouchIs(s, l, n);
    AgreeOf(s, l, k);
    assert PageIn(KERNEL, n) == Page(KERNEL, n) by { AliasReachable(s.vm, n); }
    MapPageAgree(s.vm, k.vm, l, KERNEL, n);
  }

  lemma WellFormedOf(s: Sys, l: Layout)
    requires Inv(s, l)
    ensures WellFormed(s.vm)
  {
  }

  lemma TouchTops(s: Sys, l: Layout, n: nat)
    requires Inv(s, l) && Enabled(s, l, KernelMap(n))
    ensures Reachable(s.vm, KERNEL, n) && WellFormed(s.vm)
    ensures MapPage(s.vm, KERNEL, n).Some? ==> TopsSame(s.vm, MapPage(s.vm, KERNEL, n).value)
  {
    hide WellFormed, Counted, Owned, TasksOk, AliasesOk, KernelOk, MapPage, TopsSame, Mappable, Undisturbed, Layout.IsAlias;
    hide Layout.Valid, KernelApart;
    KernelMapKeeps(s.vm, s.parents, l, n);
  }

  lemma TouchStep(s: Sys, l: Layout, n: nat)
    requires Inv(s, l) && Enabled(s, l, KernelMap(n)) && Step(s, l, KernelMap(n)).Some?
    ensures WellFormed(s.vm) && Reachable(s.vm, KERNEL, n) && MapPage(s.vm, KERNEL, n).Some?
    ensures var u := MapPage(s.vm, KERNEL, n).value;
            TopsSame(s.vm, u) && Step(s, l, KernelMap(n)).value == s.(vm := u) && Inv(s.(vm := u), l)
  {
    hide Inv, Step, Enabled, MapPage, TopsSame, WellFormed;
    StepInv(s, l, KernelMap(n));
    TouchIs(s, l, n);
    TouchTops(s, l, n);
  }

  lemma TouchShows(s: Sys, l: Layout, k: State, n: nat, w: Vm)
    requires Shows(s, l, k) && Inv(s, l) && Enabled(s, l, KernelMap(n)) && WellFormed(k.vm) && Reachable(k.vm, KERNEL, n)
    requires MapPage(k.vm, KERNEL, n) == Some(w)
    ensures Step(s, l, KernelMap(n)).Some? && Shows(Step(s, l, KernelMap(n)).value, l, k.(vm := w))
  {
    hide Inv, Shows, Agree, MapPage, Reachable, TopsSame, Layout.IsAlias, WellFormed, Step, Enabled;
    TouchAgree(s, l, k, n);
    TouchStep(s, l, n);
    VmShows(s, l, k, MapPage(s.vm, KERNEL, n).value, w);
  }

  // The store hits a frame that is no table.
  lemma SharedHits(s: Sys, l: Layout, k: State, ram: Ram, a: nat, b: Byte)
    requires Shows(s, l, k) && Inv(s, l) && Enabled(s, l, KernelStore(a, b)) && Coupled(ram, k.vm) && Top(k.space) in k.vm.tables
    ensures WellFormed(k.vm) && KernelPage(a) in k.vm.pages && k.vm.tables[Top(k.space)] < |ram|
    ensures var hit := Translate(ram, k.vm.tables[Top(k.space)], a);
            && hit.Some? && hit.value.frame < |ram|
            && var f := hit.value.frame;
               Coupled(ram[f := ram[f][OffsetOf(a) := b]], KernelStored(k.vm, a, b))
  {
    hide Inv, Shows, Agree, Coupled, Translate, PageOf, OffsetOf, Upper, Layout.IsAlias, WellFormed, IsTable;
    AgreeOf(s, l, k);
    WellFormedOf(s, l);
    AgreeWellFormed(s.vm, k.vm, l);
    Protection.TableIsAlias(s, l, PageOf(a));
    SameTables(s.vm, k.vm, s.vm.pages[KernelPage(a)].frame);
    Protection.SharedByte(ram, k.vm, k.space, a, b);
  }

  lemma SharedShows(s: Sys, l: Layout, k: State, a: nat, b: Byte)
    requires Shows(s, l, k) && Inv(s, l) && Enabled(s, l, KernelStore(a, b)) && WellFormed(k.vm) && KernelPage(a) in k.vm.pages
    ensures KernelStored(k.vm, a, b) == k.vm.(data := KernelStored(k.vm, a, b).data)
    ensures Step(s, l, KernelStore(a, b)).Some?
    ensures Shows(Step(s, l, KernelStore(a, b)).value, l, k.(vm := KernelStored(k.vm, a, b)))
  {
    hide Inv, Shows, Agree, PageOf, OffsetOf, Upper, Layout.IsAlias, WellFormed, KernelStored, TopsSame;
    hide StepFork, StepExec, StepLoad, StepStore, StepMunmap, StepExit, StepKernelMap, AfterMmap;
    StepInv(s, l, KernelStore(a, b));
    AgreeOf(s, l, k);
    WellFormedOf(s, l);
    SharedAgree(s.vm, k.vm, l, a, b);
    VmShows(s, l, k, KernelStored(s.vm, a, b), KernelStored(k.vm, a, b));
  }

  lemma SharedAgree(vm: Vm, v: Vm, l: Layout, a: nat, b: Byte)
    requires WellFormed(vm) && WellFormed(v) && Agree(vm, v, l) && KernelPage(a) in vm.pages && !l.IsAlias(PageOf(a))
    ensures KernelPage(a) in v.pages && Agree(KernelStored(vm, a, b), KernelStored(v, a, b), l)
    ensures TopsSame(vm, KernelStored(vm, a, b)) && KernelStored(v, a, b) == v.(data := KernelStored(v, a, b).data)
  {
    AgreeShape(vm, v, l);
    FramesInData(vm);
    hide WellFormed, Agree, PageOf, Layout.IsAlias, OffsetOf;
    WrittenAgree(vm, v, l, KernelPage(a), OffsetOf(a), b);
  }

  // ---------------------------------------------------------------- a new process

  lemma ForkNeeds(s: Sys, l: Layout, slot: nat)
    requires Inv(s, l) && Enabled(s, l, Event.Fork(slot))
    ensures Running(s) && SlotFree(s, l, slot) && s.active < s.nextPid
  {
    hide WellFormed, Counted, Owned, AliasesOk, KernelOk, SlotFree;
  }

  lemma AdoptableSame(vm: Vm, v: Vm, alias: nat, pid: nat)
    requires Adoptable(vm, alias, pid) && v == vm.(data := v.data)
    ensures Adoptable(v, alias, pid)
  {
  }

  // The slot's last owner is gone, and its kernel page can be used again.
  lemma SpaceReady(s: Sys, l: Layout, k: State, ram: Ram, slot: nat, va: nat)
    requires Shows(s, l, k) && Inv(s, l) && Running(s) && SlotFree(s, l, slot) && Coupled(ram, k.vm)
    requires va == 0xFFFF_0000_0000_0000 + l.Alias(slot) * 4096
    ensures va % 4096 == 0 && Canonical(va) && PageOf(va) == l.Alias(slot)
    ensures LastOwner(s, slot).Some? ==> LastOwner(s, slot).value != KERNEL && LastOwner(s, slot).value != k.space
    ensures var f := Forgotten(k.vm, ram, LastOwner(s, slot));
            && WellFormed(f) && Agree(Vacated(s, slot), f, l) && Adoptable(f, l.Alias(slot), s.nextPid)
  {
    AgreeOf(s, l, k);
    ForgottenAgree(s, l, slot, ram, k.vm);
    SpaceForSlot(s, l, slot);
    var f := Forgotten(k.vm, ram, LastOwner(s, slot));
    AliasUpper(s, l, slot, va);
    OwnerGone(s, l, k, slot);
    hide Inv, Shows, Agree, WellFormed, Adoptable, Forgotten, Vacated, Layout.Alias, Counted, Owned, PageOf, Canonical;
    AgreeShape(Vacated(s, slot), f, l);
    AgreeWellFormed(Vacated(s, slot), f, l);
    AdoptableSame(Vacated(s, slot), f, l.Alias(slot), s.nextPid);
  }

  lemma AliasUpper(s: Sys, l: Layout, slot: nat, va: nat)
    requires Inv(s, l) && SlotFree(s, l, slot) && va == 0xFFFF_0000_0000_0000 + l.Alias(slot) * 4096
    ensures va % 4096 == 0 && Canonical(va) && PageOf(va) == l.Alias(slot) && l.IsAlias(l.Alias(slot))
  {
    hide WellFormed, Counted, Owned, AliasesOk, KernelOk, TasksOk;
    assert l.Alias(slot) / 512 / 512 / 512 == KERNEL_SLOT;
    hide Canonical, PageOf, HwPml4, OffsetOf, Layout.Alias;
    UpperAddress(l.Alias(slot), 0);
  }

  lemma OwnerGone(s: Sys, l: Layout, k: State, slot: nat)
    requires Shows(s, l, k) && Inv(s, l) && Running(s) && SlotFree(s, l, slot)
    ensures LastOwner(s, slot).Some? ==> LastOwner(s, slot).value != KERNEL && LastOwner(s, slot).value != k.space
    ensures slot != k.active && slot < |k.slots| == |k.areas| && k.areas[slot] == []
    ensures s.nextPid != s.active && s.active < s.nextPid && s.nextPid !in s.tasks
  {
    hide WellFormed, Counted, Owned, AliasesOk, KernelOk, Agree, Entered;
    assert k.areas[slot] == SlotAreas(s, slot);
  }

  lemma SpaceMade(s: Sys, l: Layout, slot: nat, f: Vm, w: Vm)
    requires Inv(s, l) && SlotFree(s, l, slot) && Agree(Vacated(s, slot), f, l) && WellFormed(f)
    requires Adoptable(f, l.Alias(slot), s.nextPid) && AddSpace(f, l.Alias(slot), s.nextPid).Some?
    requires w == AddSpace(f, l.Alias(slot), s.nextPid).value.(data := w.data)
    requires Top(s.nextPid) in w.tables && FilledAt(f, w, w.tables[Top(s.nextPid)])
    ensures NewSpace(s, l, slot).Some? && Agree(NewSpace(s, l, slot).value, w, l)
  {
    SpaceForSlot(s, l, slot);
    VacatedApart(s, l, slot);
    hide Inv, Agree, WellFormed, Adoptable, Vacated, Layout.Alias, Layout.IsAlias, AddSpace, FilledAt, KernelApart, Counted;
    AddSpaceAgree(Vacated(s, slot), f, l, l.Alias(slot), s.nextPid, w);
  }

  lemma VacatedApart(s: Sys, l: Layout, slot: nat)
    requires Inv(s, l) && SlotFree(s, l, slot)
    ensures KernelApart(Vacated(s, slot)) && l.IsAlias(l.Alias(slot))
  {
    hide WellFormed, Counted, Owned, AliasesOk, KernelApart, TasksOk;
    DropApart(s.vm, if slot in s.owner then s.owner[slot] else 0);
  }

  lemma SpaceNot(s: Sys, l: Layout, slot: nat, f: Vm)
    requires Inv(s, l) && SlotFree(s, l, slot) && Agree(Vacated(s, slot), f, l) && WellFormed(f)
    requires Adoptable(f, l.Alias(slot), s.nextPid) && AddSpace(f, l.Alias(slot), s.nextPid).None?
    ensures NewSpace(s, l, slot).None?
  {
    SpaceForSlot(s, l, slot);
    var vac := Vacated(s, slot);
    AgreeShape(vac, f, l);
    hide Inv, Agree, WellFormed, Adoptable, Vacated, Layout.Alias, Layout.IsAlias, AddSpace, MapPage, Reachable, Counted, Owned;
    AddSpaceUnfold(vac, l.Alias(slot), s.nextPid);
    AddSpaceUnfold(f, l.Alias(slot), s.nextPid);
    MapPageShape(vac, f, KERNEL, l.Alias(slot));
  }

  lemma ForkNot(s: Sys, l: Layout, slot: nat)
    requires Inv(s, l) && Enabled(s, l, Event.Fork(slot)) && SlotFree(s, l, slot) && NewSpace(s, l, slot).None?
    ensures Step(s, l, Event.Fork(slot)).None?
  {
    hide Inv, NewSpace, SlotFree, StepExec, StepLoad, StepStore, StepMunmap, StepExit, StepKernelMap, KernelStored, AfterMmap;
  }

  // What the state machine makes of a fork.
  lemma ForkIs(s: Sys, l: Layout, slot: nat)
    requires Inv(s, l) && Enabled(s, l, Event.Fork(slot)) && SlotFree(s, l, slot) && NewSpace(s, l, slot).Some?
    ensures var v, t := NewSpace(s, l, slot).value, s.tasks[s.active];
            && WellFormed(v) && InUse(v, s.nextPid) && s.active != KERNEL && Bounded(t.areas)
            && var r := CopyAreas(v, s.active, s.nextPid, t.areas);
               Step(s, l, Event.Fork(slot))
                 == if r.None? then None else Some(Started(s, r.value, Task(slot, t.areas, t.heapTop, true)))
  {
    hide Inv, NewSpace, SlotFree, StepExec, StepLoad, StepStore, StepMunmap, StepExit, StepKernelMap, KernelStored, AfterMmap;
    hide WellFormed, AreasOk, Bounded, CopyAreas, Started, Counted, Owned;
    ForkNeeds(s, l, slot);
    ActiveInUse(s, l);
    InUseUser(s.vm, s.active);
    NewSpaceKeeps(s, l, slot);
  }

  // What the copying of the areas needs.
  lemma BeforeCopy(s: Sys, l: Layout, k: State, slot: nat, w: Vm)
    requires Shows(s, l, k) && Inv(s, l) && Running(s) && SlotFree(s, l, slot) && s.active < s.nextPid
    requires NewSpace(s, l, slot).Some? && Agree(NewSpace(s, l, slot).value, w, l)
    ensures k.active < |k.slots| == |k.areas| && slot < |k.areas| && slot != k.active && k.areas[slot] == []
    ensures k.space == s.active != s.nextPid && Bounded(k.areas[k.active]) && Injective(w, k.space)
    ensures WellFormed(w) && InUse(w, s.nextPid) && s.active != KERNEL && k.nextPid == s.nextPid
    ensures Top(k.space) in k.vm.tables && k.slots[k.active].cr3 == 4096 * k.vm.tables[Top(k.space)]
  {
    hide Inv, Shows, Agree, WellFormed, Counted, Owned, SlotFree, NewSpace, Undisturbed, Bounded, AreasOk, Injective;
    OneSlot(s, l, k);
    OwnerGone(s, l, k, slot);
    ActiveInUse(s, l);
    InUseUser(s.vm, s.active);
    AgreeOf(s, l, k);
    NewSpaceKeeps(s, l, slot);
    var v := NewSpace(s, l, slot).value;
    AgreeShape(v, w, l);
    AgreeWellFormed(v, w, l);
    OwnedInjective(w, s.parents[s.nextPid := s.active], s.active);
  }

  lemma ChildTop(w: Vm, x: Vm, parent: nat, child: nat, areas: seq<Vma>)
    requires WellFormed(w) && InUse(w, child) && parent != KERNEL && Bounded(areas)
    requires CopyAreas(w, parent, child, areas) == Some(x)
    ensures Top(child) in x.tables && x.tables[Top(child)] == w.tables[Top(child)]
  {
    CopyAreasTops(w, parent, child, areas);
    hide WellFormed, CopyAreas, Bounded;
  }

  lemma ForkShows(s: Sys, l: Layout, k: State, slot: nat, w: Vm, m: State)
    requires Shows(s, l, k) && Inv(s, l) && Enabled(s, l, Event.Fork(slot)) && SlotFree(s, l, slot)
    requires NewSpace(s, l, slot).Some? && Agree(NewSpace(s, l, slot).value, w, l) && WellFormed(w) && InUse(w, s.nextPid)
    requires s.active != KERNEL && k.active < |k.areas| == |k.slots| && slot < |k.slots| && Bounded(k.areas[k.active])
    requires CopyAreas(w, s.active, s.nextPid, k.areas[k.active]) == Some(m.vm)
    requires m == State(m.vm, s.nextPid, k.slots[slot := Slot(s.nextPid, 4096 * w.tables[Top(s.nextPid)], k.slots[k.active].heapTop)],
                        slot, s.nextPid + 1, m.areas)
    requires |m.areas| == |k.areas|
    requires forall i {:trigger m.areas[i]} :: 0 <= i < |k.areas| ==>
               m.areas[i] == if i == slot then k.areas[i] + k.areas[k.active] else k.areas[i]
    ensures Step(s, l, Event.Fork(slot)).Some? && Shows(Step(s, l, Event.Fork(slot)).value, l, m)
  {
    hide Inv, Shows, Agree, WellFormed, SlotFree, NewSpace, Bounded, CopyAreas, TopsSame, Step, Enabled, Started;
    ForkNeeds(s, l, slot);
    OneSlot(s, l, k);
    OwnerGone(s, l, k, slot);
    ForkIs(s, l, slot);
    var v, t := NewSpace(s, l, slot).value, s.tasks[s.active];
    CopyAgree(v, w, l, s.active, s.nextPid, t.areas);
    var u := CopyAreas(v, s.active, s.nextPid, t.areas).value;
    StepInv(s, l, Event.Fork(slot));
    ChildTop(w, m.vm, s.active, s.nextPid, t.areas);
    CopyAreasTops(v, s.active, s.nextPid, t.areas);
    LiveTops(s, l, slot, u);
    AgreeShape(u, m.vm, l);
    assert k.areas[slot] + t.areas == t.areas;
    StartedShows(s, l, k, Task(slot, t.areas, t.heapTop, true), u, m);
  }

  // The new process leaves the tables of all others where they are.
  lemma LiveTops(s: Sys, l: Layout, slot: nat, u: Vm)
    requires Inv(s, l) && SlotFree(s, l, slot) && NewSpace(s, l, slot).Some? && TopsSame(NewSpace(s, l, slot).value, u)
    ensures forall p: nat {:trigger Top(p)} :: p in s.tasks && s.tasks[p].live ==>
              Top(p) in s.vm.tables && Top(p) in u.tables && u.tables[Top(p)] == s.vm.tables[Top(p)]
  {
  }

  lemma StartedShows(s: Sys, l: Layout, k: State, t: Task, u: Vm, m: State)
    requires Shows(s, l, k) && Inv(s, l) && SlotFree(s, l, t.slot) && s.nextPid !in s.tasks && t.live
    requires Inv(Started(s, u, t), l) && Agree(u, m.vm, l) && t.slot < |k.slots| == |k.areas|
    requires forall p: nat {:trigger Top(p)} :: p in s.tasks && s.tasks[p].live ==>
               Top(p) in s.vm.tables && Top(p) in u.tables && u.tables[Top(p)] == s.vm.tables[Top(p)]
    requires |m.slots| == |k.slots| && |m.areas| == |k.areas| && m.areas[t.slot] == t.areas
    requires Entered(t, s.nextPid, m.slots, u.tables) && m.active == t.slot && m.space == s.nextPid
    requires m.nextPid == s.nextPid + 1
    requires forall i {:trigger m.slots[i]} :: 0 <= i < |k.slots| && i != t.slot ==> m.slots[i] == k.slots[i]
    requires forall i {:trigger m.areas[i]} :: 0 <= i < |k.areas| && i != t.slot ==> m.areas[i] == k.areas[i]
    ensures Shows(Started(s, u, t), l, m)
  {
    hide Inv, Agree, SlotFree, Entered;
    FreeSlot(s, l, t.slot);
    StartedTable(s, l, k, t, u, m);
  }

  // No live process has a free slot.
  lemma FreeSlot(s: Sys, l: Layout, slot: nat)
    requires Inv(s, l) && SlotFree(s, l, slot)
    ensures forall p {:trigger s.tasks[p]} :: p in s.tasks && s.tasks[p].live ==> s.tasks[p].slot != slot
    ensures forall i {:trigger s.owner[i]} :: i in s.owner ==> s.owner[i] in s.tasks
  {
    hide WellFormed, Counted, Owned, AliasesOk, KernelOk;
  }

  lemma StartedTable(s: Sys, l: Layout, k: State, t: Task, u: Vm, m: State)
    requires TableShows(s, l, k) && s.nextPid !in s.tasks && t.live && t.slot < |k.slots| == |k.areas|
    requires forall p {:trigger s.tasks[p]} :: p in s.tasks && s.tasks[p].live ==> s.tasks[p].slot != t.slot
    requires forall i {:trigger s.owner[i]} :: i in s.owner ==> s.owner[i] in s.tasks
    requires forall p: nat {:trigger Top(p)} :: p in s.tasks && s.tasks[p].live ==>
               Top(p) in s.vm.tables && Top(p) in u.tables && u.tables[Top(p)] == s.vm.tables[Top(p)]
    requires |m.slots| == |k.slots| && |m.areas| == |k.areas| && m.areas[t.slot] == t.areas
    requires Entered(t, s.nextPid, m.slots, u.tables) && m.active == t.slot && m.space == s.nextPid
    requires m.nextPid == s.nextPid + 1
    requires forall i {:trigger m.slots[i]} :: 0 <= i < |k.slots| && i != t.slot ==> m.slots[i] == k.slots[i]
    requires forall i {:trigger m.areas[i]} :: 0 <= i < |k.areas| && i != t.slot ==> m.areas[i] == k.areas[i]
    ensures TableShows(Started(s, u, t), l, m)
  {
    var n := Started(s, u, t);
    forall i {:trigger m.areas[i]} | 0 <= i < |m.areas|
      ensures m.areas[i] == SlotAreas(n, i)
    {
      assert i != t.slot ==> m.areas[i] == k.areas[i] == SlotAreas(s, i);
    }
    forall i {:trigger m.slots[i]} | 0 <= i < |m.slots|
      ensures m.slots[i].pid == SlotPid(n, i)
    {
      assert i != t.slot ==> m.slots[i] == k.slots[i] && k.slots[i].pid == SlotPid(s, i);
    }
    forall p {:trigger n.tasks[p]} | p in n.tasks && n.tasks[p].live && p != s.nextPid
      ensures Entered(n.tasks[p], p, m.slots, u.tables)
    {
      assert Entered(s.tasks[p], p, k.slots, s.vm.tables) && Top(p) in u.tables;
    }
  }

  lemma CopyNot(s: Sys, l: Layout, k: State, slot: nat, w: Vm)
    requires Shows(s, l, k) && Inv(s, l) && Enabled(s, l, Event.Fork(slot)) && SlotFree(s, l, slot)
    requires NewSpace(s, l, slot).Some? && Agree(NewSpace(s, l, slot).value, w, l)
    requires WellFormed(w) && InUse(w, s.nextPid) && s.active != KERNEL && k.active < |k.areas| && Bounded(k.areas[k.active])
    requires CopyAreas(w, s.active, s.nextPid, k.areas[k.active]).None?
    ensures Step(s, l, Event.Fork(slot)).None?
  {
    hide Inv, Shows, Agree, WellFormed, SlotFree, NewSpace, Bounded, CopyAreas, Step, Enabled, Started;
    ForkNeeds(s, l, slot);
    OneSlot(s, l, k);
    ForkIs(s, l, slot);
    CopyAgree(NewSpace(s, l, slot).value, w, l, s.active, s.nextPid, s.tasks[s.active].areas);
  }

  // ------------------------------------------------------------------------- exec

  lemma ExecNeeds(s: Sys, l: Layout, slot: nat, areas: seq<Vma>, heapTop: nat, image: seq<(nat, Frame)>)
    requires Inv(s, l) && Enabled(s, l, Event.Exec(slot, areas, heapTop, image))
    ensures Running(s) && SlotFree(s, l, slot) && s.active < s.nextPid && ImageOk(image)
  {
    hide WellFormed, Counted, Owned, AliasesOk, KernelOk, SlotFree, ImageOk;
  }

  lemma ExecNot(s: Sys, l: Layout, slot: nat, areas: seq<Vma>, heapTop: nat, image: seq<(nat, Frame)>)
    requires Inv(s, l) && Enabled(s, l, Event.Exec(slot, areas, heapTop, image)) && SlotFree(s, l, slot)
    requires NewSpace(s, l, slot).None?
    ensures Step(s, l, Event.Exec(slot, areas, heapTop, image)).None?
  {
    hide Inv, NewSpace, SlotFree, StepFork, StepLoad, StepStore, StepMunmap, StepExit, StepKernelMap, KernelStored, AfterMmap;
  }

  // What the state machine makes of an exec.
  lemma ExecIs(s: Sys, l: Layout, slot: nat, areas: seq<Vma>, heapTop: nat, image: seq<(nat, Frame)>)
    requires Inv(s, l) && Enabled(s, l, Event.Exec(slot, areas, heapTop, image)) && SlotFree(s, l, slot)
    requires NewSpace(s, l, slot).Some? && ImageOk(image)
    ensures var v := NewSpace(s, l, slot).value;
            && WellFormed(v) && InUse(v, s.nextPid) && Unmapped(v, s.nextPid, image)
            && var r := LoadImage(v, s.nextPid, image);
               && (r.Some? ==> TopsSame(v, r.value))
               && Step(s, l, Event.Exec(slot, areas, heapTop, image))
                    == if r.None? then None else Some(Started(s, r.value, Task(slot, areas, heapTop, true)))
  {
    hide Inv, NewSpace, SlotFree, StepFork, StepLoad, StepStore, StepMunmap, StepExit, StepKernelMap, KernelStored, AfterMmap;
    hide WellFormed, AreasOk, ImageOk, LoadImage, Started, Counted, Owned, TopsSame, InUse, Undisturbed;
    ExecNeeds(s, l, slot, areas, heapTop, image);
    NewSpaceKeeps(s, l, slot);
    NothingThere(s, l, slot, image);
    ImageKeeps(NewSpace(s, l, slot).value, s.parents[s.nextPid := s.active], s.nextPid, image);
  }

  lemma NothingThere(s: Sys, l: Layout, slot: nat, image: seq<(nat, Frame)>)
    requires Inv(s, l) && SlotFree(s, l, slot) && s.active < s.nextPid && NewSpace(s, l, slot).Some?
    ensures Unmapped(NewSpace(s, l, slot).value, s.nextPid, image)
  {
    hide Inv, SlotFree, NewSpace;
    forall i {:trigger image[i]} | 0 <= i < |image|
      ensures Page(s.nextPid, image[i].0) !in NewSpace(s, l, slot).value.pages
    {
      Births.NewSpaceEmpty(s, l, slot, image[i].0);
    }
  }

  lemma BeforeImage(s: Sys, l: Layout, k: State, slot: nat, w: Vm, image: seq<(nat, Frame)>)
    requires Shows(s, l, k) && Inv(s, l) && Running(s) && SlotFree(s, l, slot) && s.active < s.nextPid && ImageOk(image)
    requires NewSpace(s, l, slot).Some? && Agree(NewSpace(s, l, slot).value, w, l)
    ensures slot < |k.slots| == |k.areas| && k.areas[slot] == [] && k.nextPid == s.nextPid
    ensures WellFormed(w) && InUse(w, s.nextPid) && Unmapped(w, s.nextPid, image)
  {
    hide Inv, Shows, Agree, WellFormed, Counted, Owned, SlotFree, NewSpace, Undisturbed, ImageOk;
    OneSlot(s, l, k);
    OwnerGone(s, l, k, slot);
    NewSpaceKeeps(s, l, slot);
    NothingThere(s, l, slot, image);
    AgreeShape(NewSpace(s, l, slot).value, w, l);
    AgreeWellFormed(NewSpace(s, l, slot).value, w, l);
  }

  lemma {:induction false} ImageTop(w: Vm, x: Vm, pid: nat, image: seq<(nat, Frame)>)
    requires WellFormed(w) && InUse(w, pid) && ImageOk(image) && Unmapped(w, pid, image) && LoadImage(w, pid, image) == Some(x)
    ensures Top(pid) in x.tables && x.tables[Top(pid)] == w.tables[Top(pid)]
    decreases |image|
  {
    hide WellFormed, ImageOk, Unmapped, LoadImage, MapPage, Reachable, PageIn;
    if image == [] {
      LoadsNone(w, pid);
    } else {
      var n := image[0].0;
      LoadsOne(w, pid, image);
      var v, p := MapPage(w, pid, n).value, Page(pid, n);
      MapPageTables(w, pid, n);
      PathTops(w, pid, n);
      ImageTop(SetData(v, v.pages[p].frame, image[0].1), x, pid, image[1..]);
    }
  }

  lemma ExecShows(s: Sys, l: Layout, k: State, slot: nat, areas: seq<Vma>, heapTop: nat, image: seq<(nat, Frame)>, w: Vm, m: State)
    requires Shows(s, l, k) && Inv(s, l) && Enabled(s, l, Event.Exec(slot, areas, heapTop, image)) && SlotFree(s, l, slot)
    requires NewSpace(s, l, slot).Some? && Agree(NewSpace(s, l, slot).value, w, l) && WellFormed(w) && InUse(w, s.nextPid)
    requires ImageOk(image) && Unmapped(w, s.nextPid, image) && LoadImage(w, s.nextPid, image) == Some(m.vm)
    requires slot < |k.slots| == |k.areas|
    requires m == State(m.vm, s.nextPid, k.slots[slot := Slot(s.nextPid, 4096 * w.tables[Top(s.nextPid)], heapTop)],
                        slot, s.nextPid + 1, m.areas)
    requires |m.areas| == |k.areas|
    requires forall i {:trigger m.areas[i]} :: 0 <= i < |k.areas| ==>
               m.areas[i] == if i == slot then k.areas[i] + areas else k.areas[i]
    ensures Step(s, l, Event.Exec(slot, areas, heapTop, image)).Some?
    ensures Shows(Step(s, l, Event.Exec(slot, areas, heapTop, image)).value, l, m)
  {
    hide Inv, Shows, Agree, WellFormed, SlotFree, NewSpace, ImageOk, Unmapped, LoadImage, TopsSame, Step, Enabled, Started, InUse;
    ExecNeeds(s, l, slot, areas, heapTop, image);
    OwnerGone(s, l, k, slot);
    ExecIs(s, l, slot, areas, heapTop, image);
    var v := NewSpace(s, l, slot).value;
    ImageAgree(v, w, l, s.nextPid, image);
    var u := LoadImage(v, s.nextPid, image).value;
    StepInv(s, l, Event.Exec(slot, areas, heapTop, image));
    ImageTop(w, m.vm, s.nextPid, image);
    LiveTops(s, l, slot, u);
    AgreeShape(u, m.vm, l);
    assert k.areas[slot] + areas == areas;
    StartedShows(s, l, k, Task(slot, areas, heapTop, true), u, m);
  }

  lemma ImageNot(s: Sys, l: Layout, slot: nat, areas: seq<Vma>, heapTop: nat, image: seq<(nat, Frame)>, w: Vm)
    requires Inv(s, l) && Enabled(s, l, Event.Exec(slot, areas, heapTop, image)) && SlotFree(s, l, slot)
    requires NewSpace(s, l, slot).Some? && Agree(NewSpace(s, l, slot).value, w, l) && WellFormed(w) && InUse(w, s.nextPid)
    requires ImageOk(image) && Unmapped(w, s.nextPid, image) && LoadImage(w, s.nextPid, image).None?
    ensures Step(s, l, Event.Exec(slot, areas, heapTop, image)).None?
  {
    hide Inv, Agree, WellFormed, SlotFree, NewSpace, ImageOk, Unmapped, LoadImage, TopsSame, Step, Enabled, Started, InUse;
    ExecIs(s, l, slot, areas, heapTop, image);
    ImageAgree(NewSpace(s, l, slot).value, w, l, s.nextPid, image);
  }
}
