/**
  The memory side of the whole system as a state machine: processes fork, load, store,
  fault, map, unmap, start programs, exit, and are switched between, in any order.
 */
module Runs {
  import opened Addressing
  import Counting
  import opened Isolation
  import opened Memory
  import opened Spaces
  import opened VirtualMemory
  import opened Wrappers

  datatype Task = Task(slot: nat, areas: seq<Vma>, heapTop: nat, live: bool)

  datatype Sys = Sys(
    vm: Vm,
    tasks: map<nat, Task>,      // by pid, also those that are gone
    parents: map<nat, nat>,     // by pid
    owner: map<nat, nat>,       // the pid that had a process slot last
    active: nat,
    nextPid: nat
  )

  // Done by the active process for itself: not by the scheduler, and not to the shared part.
  predicate ByOwner(e: Event) {
    !e.Switch? && !e.KernelMap? && !e.KernelStore?
  }

  // The layout of the kernel: how many process slots, and the page of the top-level table
  // of slot 0; the others lie below it.
  datatype Layout = Layout(slots: nat, upml4: nat) {

    ghost predicate Valid() {
      slots <= upml4 && forall i {:trigger Alias(i)} :: 0 <= i < slots ==> Alias(i) / 512 / 512 / 512 == KERNEL_SLOT
    }

    function Alias(slot: nat): nat {
      if slot <= upml4 then upml4 - slot else 0
    }

    ghost predicate IsAlias(n: nat) {
      exists i {:trigger Alias(i)} :: 0 <= i < slots && Alias(i) == n
    }
  }

  datatype Event =
    | Fork(slot: nat)
    | Exec(slot: nat, areas: seq<Vma>, heapTop: nat, image: seq<(nat, Frame)>)
    | Load(a: nat)
    | Store(a: nat, b: Byte)
    | Mmap(length: nat)
    | Munmap(a: nat, length: nat)
    | Exit
    | Switch(pid: nat)
    | KernelMap(n: nat)               // the kernel touches a page of its own for the first time
    | KernelStore(a: nat, b: Byte)    // a store through entry 511, by whatever mode

  // The loop variable of unmap_phyaddr_range is an int.
  const INT_LIMIT: nat := 0x7FFF_F000

  predicate AreasOk(areas: seq<Vma>) {
    forall i :: 0 <= i < |areas| ==> areas[i].start <= INT_LIMIT && areas[i].end <= INT_LIMIT
  }

  ghost predicate SlotFree(s: Sys, l: Layout, slot: nat) {
    slot < l.slots && (slot in s.owner ==> s.owner[slot] in s.tasks && !s.tasks[s.owner[slot]].live)
  }

  // Somebody runs.
  predicate Running(s: Sys) {
    s.active in s.tasks && s.tasks[s.active].live
  }

  ghost predicate Enabled(s: Sys, l: Layout, e: Event) {
    match e
    case Fork(slot) => Running(s) && SlotFree(s, l, slot)
    case Exec(slot, areas, heapTop, image) =>
      && Running(s) && SlotFree(s, l, slot) && AreasOk(areas) && ImageOk(image)
      && heapTop > 0 && heapTop % 4096 == 0
    case Load(a) => Running(s) && Private(a)
    case Store(a, b) => Running(s) && Private(a)
    case Mmap(length) => Running(s) && s.tasks[s.active].heapTop + length <= INT_LIMIT
    case Munmap(a, length) => Running(s)
    case Exit => Running(s)
    case Switch(pid) => pid in s.tasks && s.tasks[pid].live
    case KernelMap(n) =>
      n / 512 / 512 / 512 == KERNEL_SLOT && !l.IsAlias(n) && Page(KERNEL, n) !in s.vm.pages
    case KernelStore(a, b) =>
      && Upper(a) && !l.IsAlias(PageOf(a))
      && KernelPage(a) in s.vm.pages && s.vm.pages[KernelPage(a)].writable
  }

  // The page of an address of the shared part.
  function KernelPage(a: nat): Page { Page(KERNEL, PageOf(a)) }

  // Distinct pages of the lower half.
  predicate ImageOk(image: seq<(nat, Frame)>) {
    && (forall i :: 0 <= i < |image| ==> image[i].0 < PAGE_LIMIT)
    && (forall i, j :: 0 <= i < j < |image| ==> image[i].0 != image[j].0)
  }

  // ------------------------------------------------------------------ invariant

  ghost predicate TasksOk(s: Sys, l: Layout) {
    && 0 < s.nextPid
    && (forall p {:trigger s.tasks[p]} {:trigger p in s.tasks} :: p in s.tasks ==>
          && 0 < p < s.nextPid && s.tasks[p].slot < l.slots && AreasOk(s.tasks[p].areas)
          && s.tasks[p].heapTop > 0 && s.tasks[p].heapTop % 4096 == 0
          && (s.tasks[p].live ==> s.tasks[p].slot in s.owner && s.owner[s.tasks[p].slot] == p && Top(p) in s.vm.tables))
    && (forall p {:trigger s.parents[p]} {:trigger p in s.parents} :: p in s.parents ==>
          0 < p < s.nextPid && s.parents[p] < p)
    && (forall i {:trigger s.owner[i]} :: i in s.owner ==> s.owner[i] in s.tasks && s.tasks[s.owner[i]].slot == i)
  }

  // A kernel alias shows the top-level table of the last process of its slot.
  ghost predicate AliasesOk(s: Sys, l: Layout) {
    && (forall i {:trigger l.Alias(i)} :: 0 <= i < l.slots && Page(KERNEL, l.Alias(i)) in s.vm.pages ==>
          && i in s.owner && Top(s.owner[i]) in s.vm.tables
          && s.vm.pages[Page(KERNEL, l.Alias(i))].frame == s.vm.tables[Top(s.owner[i])])
    && (forall p: nat {:trigger Top(p)} :: Top(p) in s.vm.tables ==> 0 < p < s.nextPid)
  }

  // The pages of the kernel show different frames, and no page but an alias shows a top-level
  // table.
  ghost predicate KernelOk(vm: Vm, l: Layout) {
    && KernelApart(vm)
    && (forall p, pid: nat {:trigger vm.pages[p], Top(pid)} ::
          p in vm.pages && p.space == KERNEL && Top(pid) in vm.tables && vm.pages[p].frame == vm.tables[Top(pid)] ==>
            l.IsAlias(p.number))
  }

  ghost predicate Inv(s: Sys, l: Layout) {
    && l.Valid() && WellFormed(s.vm) && Counted(s.vm) && Owned(s.vm, s.parents)
    && TasksOk(s, l) && AliasesOk(s, l) && KernelOk(s.vm, l)
  }

  // ---------------------------------------------------------------------- steps

  // The address space of a new process: the slot's last owner loses its tables.
  ghost function NewSpace(s: Sys, l: Layout, slot: nat): (r: Option<Vm>)
    requires Inv(s, l) && SlotFree(s, l, slot)
    ensures r.Some? ==> WellFormed(r.value)
  {
    SpaceForSlot(s, l, slot);
    AddSpace(Vacated(s, slot), l.Alias(slot), s.nextPid)
  }

  function Vacated(s: Sys, slot: nat): Vm {
    if slot in s.owner then DropSpace(s.vm, s.owner[slot]) else s.vm
  }

  lemma SpaceForSlot(s: Sys, l: Layout, slot: nat)
    requires Inv(s, l) && SlotFree(s, l, slot)
    ensures WellFormed(Vacated(s, slot)) && Counted(Vacated(s, slot)) && Owned(Vacated(s, slot), s.parents)
    ensures Adoptable(Vacated(s, slot), l.Alias(slot), s.nextPid)
    ensures forall q {:trigger Undisturbed(s.vm, Vacated(s, slot), q)} ::
              !(slot in s.owner && q == s.owner[slot]) ==> Undisturbed(s.vm, Vacated(s, slot), q)
  {
    hide WellFormed, Counted, Owned, Undisturbed, Adoptable;
    if slot in s.owner {
      var d := s.owner[slot];
      assert d in s.tasks;
      DropWellFormed(s.vm, d);
      DropCounted(s.vm, d);
      DropIsolated(s.vm, s.parents, d);
      AdoptableAfterDrop(s.vm, l.Alias(slot), d, s.nextPid);
    } else {
      AllUndisturbedSelf(s.vm);
      AdoptableNew(s.vm, l.Alias(slot), s.nextPid);
    }
  }

  lemma AdoptableNew(vm: Vm, alias: nat, pid: nat)
    requires alias / 512 / 512 / 512 == KERNEL_SLOT && pid != KERNEL && Top(pid) !in vm.tables
    requires Page(KERNEL, alias) !in vm.pages
    ensures Adoptable(vm, alias, pid)
  {
  }

  lemma AdoptableAfterDrop(vm: Vm, alias: nat, dead: nat, pid: nat)
    requires WellFormed(vm) && alias / 512 / 512 / 512 == KERNEL_SLOT && pid != KERNEL && dead != KERNEL
    requires Top(pid) !in vm.tables
    requires Page(KERNEL, alias) in vm.pages ==>
      Top(dead) in vm.tables && vm.pages[Page(KERNEL, alias)].frame == vm.tables[Top(dead)]
    ensures Adoptable(DropSpace(vm, dead), alias, pid)
  {
    hide FreeFrame;
    var v, p := DropSpace(vm, dead), Page(KERNEL, alias);
    FreeKept(vm, v);
    if p in vm.pages {
      PageFrame(vm, p);
      assert p in v.pages && v.pages[p] == vm.pages[p];
    }
  }

  // The pages of a program image, each with its bytes.
  ghost function LoadImage(vm: Vm, pid: nat, image: seq<(nat, Frame)>): (r: Option<Vm>)
    requires WellFormed(vm) && InUse(vm, pid)
    requires ImageOk(image)
    ensures r.Some? ==> WellFormed(r.value)
    decreases |image|
  {
    if image == [] then Some(vm)
    else
      hide WellFormed, MapPage, Reachable, Mappable, FreeFrame, PageIn, Quiet, ZeroPrefix;
      var (n, fr) := image[0];
      if Page(pid, n) in vm.pages then LoadImage(vm, pid, image[1..])
      else
        UserReachable(vm, pid, n);
        MapPageEffect(vm, pid, n);
        var v :- MapPage(vm, pid, n);
        SetDataWellFormed(v, v.pages[Page(pid, n)].frame, fr);
        LoadImage(SetData(v, v.pages[Page(pid, n)].frame, fr), pid, image[1..])
  }

  lemma BoundedAreas(areas: seq<Vma>)
    requires AreasOk(areas)
    ensures Bounded(areas)
  {
  }

  // The state once a new process has an address space `vm`, and runs.
  function Started(s: Sys, vm: Vm, task: Task): Sys {
    s.(vm := vm,
       tasks := s.tasks[s.nextPid := task],
       parents := s.parents[s.nextPid := s.active],
       owner := s.owner[task.slot := s.nextPid],
       active := s.nextPid,
       nextPid := s.nextPid + 1)
  }

  // sys/syscall.c, k_mmap.
  function Mapping(t: Task, length: nat): (v: Vma)
    requires t.heapTop > 0
  {
    Vma(t.heapTop, t.heapTop + length - 1)
  }

  function AfterMmap(t: Task, length: nat): Task
    requires t.heapTop > 0
  {
    t.(areas := t.areas + [Mapping(t, length)], heapTop := (Mapping(t, length).end / 4096 + 1) * 4096)
  }

  // None when the machine stops: out of memory, or a segmentation fault.
  ghost function Step(s: Sys, l: Layout, e: Event): (r: Option<Sys>)
    requires Inv(s, l) && Enabled(s, l, e)
  {
    match e
    case Fork(slot) => StepFork(s, l, slot)
    case Exec(slot, areas, heapTop, image) => StepExec(s, l, slot, areas, heapTop, image)
    case Load(a) => StepLoad(s, l, a)
    case Store(a, b) => StepStore(s, l, a, b)
    case Mmap(length) => Some(s.(tasks := s.tasks[s.active := AfterMmap(s.tasks[s.active], length)]))
    case Munmap(a, length) => StepMunmap(s, l, a, length)
    case Exit => Some(StepExit(s, l))
    case Switch(pid) => Some(s.(active := pid))
    case KernelMap(n) => StepKernelMap(s, l, n)
    case KernelStore(a, b) => Some(s.(vm := KernelStored(s.vm, a, b)))
  }

  // A fault of the kernel, at an address of its own.
  ghost function StepKernelMap(s: Sys, l: Layout, n: nat): Option<Sys>
    requires Inv(s, l) && n / 512 / 512 / 512 == KERNEL_SLOT
  {
    AliasReachable(s.vm, n);
    var v :- MapPage(s.vm, KERNEL, n);
    Some(s.(vm := v))
  }

  function KernelStored(vm: Vm, a: nat, b: Byte): Vm
    requires WellFormed(vm) && KernelPage(a) in vm.pages
  {
    FramesInData(vm);
    var f := vm.pages[KernelPage(a)].frame;
    SetData(vm, f, vm.data[f][OffsetOf(a) := b])
  }

  lemma ActiveInUse(s: Sys, l: Layout)
    requires Inv(s, l) && Running(s)
    ensures InUse(s.vm, s.active) && WellFormed(s.vm) && Counted(s.vm)
    ensures AreasOk(s.tasks[s.active].areas) && Bounded(s.tasks[s.active].areas)
  {
    BoundedAreas(s.tasks[s.active].areas);
    hide WellFormed, Counted, Owned, AliasesOk, KernelOk;
  }

  ghost function StepFork(s: Sys, l: Layout, slot: nat): Option<Sys>
    requires Inv(s, l) && Enabled(s, l, Fork(slot))
  {
    hide WellFormed, Adoptable, AreasOk, Bounded;
    ActiveInUse(s, l);
    SpaceForSlot(s, l, slot);
    var v :- NewSpace(s, l, slot);
    AddSpaceTops(Vacated(s, slot), l.Alias(slot), s.nextPid);
    var t := s.tasks[s.active];
    var w :- CopyAreas(v, s.active, s.nextPid, t.areas);
    Some(Started(s, w, Task(slot, t.areas, t.heapTop, true)))
  }

  ghost function StepExec(s: Sys, l: Layout, slot: nat, areas: seq<Vma>, heapTop: nat, image: seq<(nat, Frame)>): Option<Sys>
    requires Inv(s, l) && Enabled(s, l, Exec(slot, areas, heapTop, image))
  {
    hide WellFormed, Adoptable;
    SpaceForSlot(s, l, slot);
    var v :- NewSpace(s, l, slot);
    AddSpaceTops(Vacated(s, slot), l.Alias(slot), s.nextPid);
    var w :- LoadImage(v, s.nextPid, image);
    Some(Started(s, w, Task(slot, areas, heapTop, true)))
  }

  ghost function StepLoad(s: Sys, l: Layout, a: nat): Option<Sys>
    requires Inv(s, l) && Enabled(s, l, Load(a))
  {
    ActiveInUse(s, l);
    var v :- Access(s.vm, s.active, s.tasks[s.active].areas, a, false);
    Some(s.(vm := v))
  }

  ghost function StepStore(s: Sys, l: Layout, a: nat, b: Byte): Option<Sys>
    requires Inv(s, l) && Enabled(s, l, Store(a, b))
  {
    ActiveInUse(s, l);
    var v :- Access(s.vm, s.active, s.tasks[s.active].areas, a, true);
    AccessPermits(s.vm, s.active, s.tasks[s.active].areas, a, true);
    Some(s.(vm := StoreByte(v, s.active, a, b)))
  }

  ghost function StepMunmap(s: Sys, l: Layout, a: nat, length: nat): Option<Sys>
    requires Inv(s, l) && Enabled(s, l, Munmap(a, length))
  {
    ActiveInUse(s, l);
    var t := s.tasks[s.active];
    var i := FirstCover(t.areas, a, a + length);
    if i == |t.areas| then None
    else
      Some(s.(vm := UnmapPages(s.vm, s.active, AreaFirst(t.areas[i]), UnmapLimit(t.areas[i])),
              tasks := s.tasks[s.active := t.(areas := Without(t.areas, i))]))
  }

  ghost function StepExit(s: Sys, l: Layout): Sys
    requires Inv(s, l) && Enabled(s, l, Exit)
  {
    ActiveInUse(s, l);
    var t := s.tasks[s.active];
    s.(vm := ReleaseAreas(s.vm, s.active, t.areas),
       tasks := s.tasks[s.active := t.(areas := [], live := false)], active := 0)
  }

  // ------------------------------------------------------- what every step keeps

  // A step of the active process inside its own space.
  lemma VmChange(s: Sys, l: Layout, v: Vm)
    requires Inv(s, l) && WellFormed(v) && Counted(v) && Owned(v, s.parents)
    requires TopsSame(s.vm, v) && Undisturbed(s.vm, v, KERNEL)
    ensures Inv(s.(vm := v), l)
  {
    hide WellFormed, Counted, Owned, AreasOk;
    var t := s.(vm := v);
    forall i {:trigger l.Alias(i)} | 0 <= i < l.slots && Page(KERNEL, l.Alias(i)) in v.pages
      ensures i in s.owner && Top(s.owner[i]) in v.tables
      ensures v.pages[Page(KERNEL, l.Alias(i))].frame == v.tables[Top(s.owner[i])]
    {
      assert Page(KERNEL, l.Alias(i)) in s.vm.pages;
    }
  }

  lemma TaskChange(s: Sys, l: Layout, p: nat, t: Task)
    requires Inv(s, l) && p in s.tasks && t.slot == s.tasks[p].slot && AreasOk(t.areas)
    requires t.heapTop > 0 && t.heapTop % 4096 == 0 && (t.live ==> s.tasks[p].live)
    ensures Inv(s.(tasks := s.tasks[p := t]), l)
  {
    hide WellFormed, Counted, Owned, AreasOk;
  }

  lemma LoadInv(s: Sys, l: Layout, a: nat)
    requires Inv(s, l) && Enabled(s, l, Load(a))
    ensures StepLoad(s, l, a).Some? ==> Inv(StepLoad(s, l, a).value, l)
  {
    hide WellFormed, Counted, Owned, Undisturbed, TopsSame, Access, Bounded;
    ActiveInUse(s, l);
    var areas := s.tasks[s.active].areas;
    var r := Access(s.vm, s.active, areas, a, false);
    AccessKeeps(s, l, a, false);
    if r.Some? {
      VmChange(s, l, r.value);
    }
  }

  lemma AccessKeeps(s: Sys, l: Layout, a: nat, write: bool)
    requires Inv(s, l) && Running(s) && Private(a)
    ensures InUse(s.vm, s.active)
    ensures var r := Access(s.vm, s.active, s.tasks[s.active].areas, a, write);
      r.Some? ==>
        && WellFormed(r.value) && Counted(r.value) && Owned(r.value, s.parents) && TopsSame(s.vm, r.value)
        && Undisturbed(s.vm, r.value, KERNEL)
        && Permitted(r.value, s.active, a, write) && r.value.pages[UserPage(s.active, a)].frame < |r.value.data|
        && (forall q {:trigger Undisturbed(s.vm, r.value, q)} :: q != s.active ==> Undisturbed(s.vm, r.value, q))
  {
    hide WellFormed, Counted, Owned, Undisturbed, TopsSame, Access, Bounded, Permitted;
    ActiveInUse(s, l);
    InUseUser(s.vm, s.active);
    var areas := s.tasks[s.active].areas;
    AccessPermits(s.vm, s.active, areas, a, write);
    Counting.AccessCounted(s.vm, s.active, areas, a, write);
    AccessIsolated(s.vm, s.parents, s.active, areas, a, write);
    AccessTops(s.vm, s.active, areas, a, write);
    var r := Access(s.vm, s.active, areas, a, write);
    assert r.Some? ==> Undisturbed(s.vm, r.value, KERNEL);
  }

  lemma StoreInv(s: Sys, l: Layout, a: nat, b: Byte)
    requires Inv(s, l) && Enabled(s, l, Store(a, b))
    ensures StepStore(s, l, a, b).Some? ==> Inv(StepStore(s, l, a, b).value, l)
  {
    hide WellFormed, Counted, Owned, Undisturbed, TopsSame, Access, Bounded, Permitted;
    ActiveInUse(s, l);
    AccessKeeps(s, l, a, true);
    var r := Access(s.vm, s.active, s.tasks[s.active].areas, a, true);
    if r.Some? {
      VmChange(s, l, r.value);
      StoreKeeps(s.(vm := r.value), l, a, b);
    }
  }

  lemma StoreKeeps(s: Sys, l: Layout, a: nat, b: Byte)
    requires Inv(s, l) && Running(s) && Permitted(s.vm, s.active, a, true)
    ensures s.vm.pages[UserPage(s.active, a)].frame < |s.vm.data|
    ensures Inv(s.(vm := StoreByte(s.vm, s.active, a, b)), l)
  {
    FramesInData(s.vm);
    hide Inv, PageOf, Private;
    var f := s.vm.pages[UserPage(s.active, a)].frame;
    DataChange(s, l, f, s.vm.data[f][OffsetOf(a) := b]);
  }

  lemma MunmapInv(s: Sys, l: Layout, a: nat, length: nat)
    requires Inv(s, l) && Enabled(s, l, Munmap(a, length))
    ensures StepMunmap(s, l, a, length).Some? ==> Inv(StepMunmap(s, l, a, length).value, l)
  {
    hide WellFormed, Counted, Owned, Undisturbed, TopsSame, UnmapPages, Bounded;
    ActiveInUse(s, l);
    InUseUser(s.vm, s.active);
    var t := s.tasks[s.active];
    var i := FirstCover(t.areas, a, a + length);
    if i < |t.areas| {
      var x, y := AreaFirst(t.areas[i]), UnmapLimit(t.areas[i]);
      UnmapPagesIsolated(s.vm, s.parents, s.active, x, y);
      var v := UnmapPages(s.vm, s.active, x, y);
      TopsOfTables(s.vm, v);
      assert Undisturbed(s.vm, v, KERNEL);
      VmChange(s, l, v);
      TaskChange(s.(vm := v), l, s.active, t.(areas := Without(t.areas, i)));
    }
  }

  lemma ExitInv(s: Sys, l: Layout)
    requires Inv(s, l) && Enabled(s, l, Exit)
    ensures Inv(StepExit(s, l), l)
  {
    hide WellFormed, Counted, Owned, Undisturbed, TopsSame, ReleaseAreas, Bounded;
    ActiveInUse(s, l);
    InUseUser(s.vm, s.active);
    var t := s.tasks[s.active];
    ReleaseIsolated(s.vm, s.parents, s.active, t.areas);
    var v := ReleaseAreas(s.vm, s.active, t.areas);
    TopsOfTables(s.vm, v);
    assert Undisturbed(s.vm, v, KERNEL);
    VmChange(s, l, v);
    TaskChange(s.(vm := v), l, s.active, t.(areas := [], live := false));
  }

  lemma MmapInv(s: Sys, l: Layout, length: nat)
    requires Inv(s, l) && Enabled(s, l, Mmap(length))
    ensures Inv(s.(tasks := s.tasks[s.active := AfterMmap(s.tasks[s.active], length)]), l)
  {
    hide WellFormed, Counted, Owned, AliasesOk, KernelOk;
    TaskChange(s, l, s.active, AfterMmap(s.tasks[s.active], length));
  }

  // A new process: the state in between has its top-level table and nothing below it.
  lemma StartedInv(s: Sys, l: Layout, slot: nat, w: Vm, task: Task)
    requires Inv(s, l) && s.active < s.nextPid && SlotFree(s, l, slot) && NewSpace(s, l, slot).Some?
    requires task.slot == slot && AreasOk(task.areas) && task.heapTop > 0 && task.heapTop % 4096 == 0
    requires var v := NewSpace(s, l, slot).value; TopsSame(v, w) && Undisturbed(v, w, KERNEL)
    requires WellFormed(w) && Counted(w) && Owned(w, s.parents[s.nextPid := s.active])
    ensures Inv(Started(s, w, task), l)
  {
    hide WellFormed, Counted, Owned, Adoptable, AreasOk, AddSpace;
    SpaceForSlot(s, l, slot);
    AddSpaceTops(Vacated(s, slot), l.Alias(slot), s.nextPid);
    var v := NewSpace(s, l, slot).value;
    StartedAliases(s, l, slot, v, w, task);
    StartedTasks(s, l, slot, v, w, task);
    StartedKernel(s, l, slot, v, w);
  }

  lemma StartedKernel(s: Sys, l: Layout, slot: nat, v: Vm, w: Vm)
    requires l.Valid() && KernelOk(s.vm, l) && slot < l.slots
    requires WellFormed(Vacated(s, slot)) && Adoptable(Vacated(s, slot), l.Alias(slot), s.nextPid)
    requires AddSpace(Vacated(s, slot), l.Alias(slot), s.nextPid) == Some(v)
    requires TopsSame(v, w) && Undisturbed(v, w, KERNEL)
    ensures KernelOk(w, l)
  {
    hide WellFormed, Adoptable, AddSpace, TopsSame, KernelApart, Undisturbed;
    var vac := Vacated(s, slot);
    DropApart(s.vm, if slot in s.owner then s.owner[slot] else 0);
    AddSpaceApart(vac, l.Alias(slot), s.nextPid);
    AddSpaceTops(vac, l.Alias(slot), s.nextPid);
    UndisturbedApart(v, w);
    StartedShown(s, l, slot, v, w);
  }

  // A page of the kernel that shows a top-level table: it is the alias of the new process, or
  // showed that table before.
  lemma StartedShown(s: Sys, l: Layout, slot: nat, v: Vm, w: Vm)
    requires KernelOk(s.vm, l) && slot < l.slots && KernelApart(v)
    requires TopsSame(v, w) && Undisturbed(v, w, KERNEL)
    requires var p0 := Page(KERNEL, l.Alias(slot));
             && Top(s.nextPid) in v.tables && p0 in v.pages && v.pages[p0].frame == v.tables[Top(s.nextPid)]
             && v.pages - {p0} == Vacated(s, slot).pages - {p0}
             && TopsSame(Vacated(s, slot), v.(tables := v.tables - {Top(s.nextPid)}))
    ensures forall p, pid: nat {:trigger w.pages[p], Top(pid)} ::
              p in w.pages && p.space == KERNEL && Top(pid) in w.tables && w.pages[p].frame == w.tables[Top(pid)] ==>
                l.IsAlias(p.number)
  {
    var p0, vac := Page(KERNEL, l.Alias(slot)), Vacated(s, slot);
    assert l.IsAlias(l.Alias(slot));
    forall p, pid: nat {:trigger w.pages[p], Top(pid)}
      | p in w.pages && p.space == KERNEL && Top(pid) in w.tables && w.pages[p].frame == w.tables[Top(pid)] && p != p0
      ensures l.IsAlias(p.number)
    {
      assert p in v.pages && v.pages[p] == w.pages[p] && Top(pid) in v.tables && v.tables[Top(pid)] == w.tables[Top(pid)];
      assert pid != s.nextPid;
      assert Top(pid) in v.tables - {Top(s.nextPid)} && Top(pid) in vac.tables;
      assert p in v.pages - {p0} && p in vac.pages - {p0} && (v.pages - {p0})[p] == (vac.pages - {p0})[p];
      assert p in s.vm.pages && s.vm.pages[p] == v.pages[p];
    }
  }

  lemma StartedAliases(s: Sys, l: Layout, slot: nat, v: Vm, w: Vm, task: Task)
    requires l.Valid() && TasksOk(s, l) && AliasesOk(s, l) && SlotFree(s, l, slot) && task.slot == slot
    requires TopsSame(v, w) && Undisturbed(v, w, KERNEL)
    requires Top(s.nextPid) in v.tables && Page(KERNEL, l.Alias(slot)) in v.pages
    requires v.pages[Page(KERNEL, l.Alias(slot))].frame == v.tables[Top(s.nextPid)]
    requires v.pages - {Page(KERNEL, l.Alias(slot))} == Vacated(s, slot).pages - {Page(KERNEL, l.Alias(slot))}
    requires TopsSame(Vacated(s, slot), v.(tables := v.tables - {Top(s.nextPid)}))
    ensures AliasesOk(Started(s, w, task), l)
  {
    hide AreasOk;
    var t, vac := Started(s, w, task), Vacated(s, slot);
    forall i {:trigger l.Alias(i)} | 0 <= i < l.slots && Page(KERNEL, l.Alias(i)) in w.pages
      ensures i in t.owner && Top(t.owner[i]) in w.tables
      ensures w.pages[Page(KERNEL, l.Alias(i))].frame == w.tables[Top(t.owner[i])]
    {
      var p := Page(KERNEL, l.Alias(i));
      assert p in v.pages && w.pages[p] == v.pages[p];
      if i != slot {
        assert p in vac.pages - {Page(KERNEL, l.Alias(slot))} && vac.pages[p] == v.pages[p];
        assert p in s.vm.pages && s.owner[i] in s.tasks;
        var x := s.owner[i];
        assert slot in s.owner ==> s.owner[slot] != x;
        assert Top(x) in vac.tables && x != s.nextPid;
        assert Top(x) in v.tables - {Top(s.nextPid)};
      }
    }
    forall p: nat {:trigger Top(p)} | Top(p) in w.tables
      ensures 0 < p < t.nextPid
    {
      assert Top(p) in v.tables;
      if p != s.nextPid {
        assert Top(p) in v.tables - {Top(s.nextPid)};
        assert Top(p) in vac.tables;
        assert Top(p) in s.vm.tables;
      }
    }
  }

  lemma StartedTasks(s: Sys, l: Layout, slot: nat, v: Vm, w: Vm, task: Task)
    requires TasksOk(s, l) && SlotFree(s, l, slot) && s.active < s.nextPid
    requires task.slot == slot && AreasOk(task.areas) && task.heapTop > 0 && task.heapTop % 4096 == 0
    requires TopsSame(v, w) && Top(s.nextPid) in v.tables
    requires TopsSame(Vacated(s, slot), v.(tables := v.tables - {Top(s.nextPid)}))
    ensures TasksOk(Started(s, w, task), l)
  {
    hide AreasOk;
    var t, vac := Started(s, w, task), Vacated(s, slot);
    forall p | p in s.tasks && s.tasks[p].live
      ensures t.owner[s.tasks[p].slot] == p && Top(p) in w.tables
    {
      assert Top(p) in vac.tables && p != s.nextPid;
      assert Top(p) in v.tables - {Top(s.nextPid)};
    }
  }

  // The address space of a new process disturbs nobody who is alive.
  lemma NewSpaceKeeps(s: Sys, l: Layout, slot: nat)
    requires Inv(s, l) && s.active < s.nextPid && SlotFree(s, l, slot)
    ensures NewSpace(s, l, slot).Some? ==>
      var v := NewSpace(s, l, slot).value; var parents := s.parents[s.nextPid := s.active];
      && WellFormed(v) && Counted(v) && InUse(v, s.nextPid) && Owned(v, parents)
      && (forall q {:trigger Undisturbed(s.vm, v, q)} ::
            q in s.tasks && s.tasks[q].live && q != KERNEL ==> Undisturbed(s.vm, v, q))
  {
    hide WellFormed, Counted, Owned, Undisturbed, TopsSame, AreasOk, Adoptable, Vacated, AddSpace, AliasesOk, KernelOk;
    SpaceForSlot(s, l, slot);
    var vac := Vacated(s, slot);
    Counting.AddSpaceCounted(vac, l.Alias(slot), s.nextPid);
    AddSpaceIsolated(vac, s.parents, l.Alias(slot), s.nextPid);
    AddSpaceTops(vac, l.Alias(slot), s.nextPid);
    var r := AddSpace(vac, l.Alias(slot), s.nextPid);
    if r.Some? {
      OwnedMore(r.value, s.parents, s.parents[s.nextPid := s.active]);
      forall q | q in s.tasks && s.tasks[q].live && q != KERNEL
        ensures Undisturbed(s.vm, r.value, q)
      {
        assert Undisturbed(s.vm, vac, q);
        UndisturbedTransitive(s.vm, vac, r.value, q);
      }
    }
  }

  lemma ForkKeeps(s: Sys, l: Layout, slot: nat)
    requires Inv(s, l) && Enabled(s, l, Fork(slot))
    ensures StepFork(s, l, slot).Some? ==>
      && NewSpace(s, l, slot).Some?
      && var v := NewSpace(s, l, slot).value; var r := StepFork(s, l, slot).value; var w := r.vm;
      && WellFormed(w) && Counted(w) && Owned(w, s.parents[s.nextPid := s.active])
      && TopsSame(v, w) && Undisturbed(v, w, KERNEL)
      && r == Started(s, w, Task(slot, s.tasks[s.active].areas, s.tasks[s.active].heapTop, true))
      && (forall q {:trigger Undisturbed(v, w, q)} :: q != s.nextPid ==> Undisturbed(v, w, q))
  {
    hide WellFormed, Counted, Owned, Undisturbed, TopsSame, NewSpace, CopyAreas, Bounded, AreasOk, InUse;
    hide AliasesOk, KernelOk;
    ActiveInUse(s, l);
    InUseUser(s.vm, s.active);
    NewSpaceKeeps(s, l, slot);
    var n := NewSpace(s, l, slot);
    if n.Some? {
      var v, parents, areas := n.value, s.parents[s.nextPid := s.active], s.tasks[s.active].areas;
      Counting.CopyAreasCounted(v, s.active, s.nextPid, areas);
      CopyAreasIsolated(v, parents, s.active, s.nextPid, areas);
      CopyAreasTops(v, s.active, s.nextPid, areas);
      var r := CopyAreas(v, s.active, s.nextPid, areas);
      assert r.Some? ==> Undisturbed(v, r.value, KERNEL);
    }
  }

  // ------------------------------------------------------------------ images

  lemma LoadOne(vm: Vm, parents: map<nat, nat>, pid: nat, n: nat, fr: Frame)
    requires WellFormed(vm) && InUse(vm, pid) && n < PAGE_LIMIT && Page(pid, n) !in vm.pages
    requires Counted(vm) && Owned(vm, parents)
    ensures Reachable(vm, pid, n)
    ensures MapPage(vm, pid, n).Some? ==>
      var v := MapPage(vm, pid, n).value;
      && Page(pid, n) in v.pages && v.pages[Page(pid, n)].frame < |v.data|
      && var w := SetData(v, v.pages[Page(pid, n)].frame, fr);
      && WellFormed(w) && Counted(w) && Owned(w, parents) && InUse(w, pid) && TopsSame(vm, w)
      && (forall q {:trigger Undisturbed(vm, w, q)} :: q != pid ==> Undisturbed(vm, w, q))
  {
    hide WellFormed, Counted, Owned, Undisturbed, MapPage, Reachable, Mappable, FreeFrame, PageIn, Quiet, ZeroPrefix;
    hide EnsurePath;
    UserReachable(vm, pid, n);
    MapPageEffect(vm, pid, n);
    PathTops(vm, pid, n);
    MapPageTables(vm, pid, n);
    var r := MapPage(vm, pid, n);
    if r.Some? {
      var v, e := r.value, r.value.pages[Page(pid, n)];
      Counting.FreshCounted(vm, v, Page(pid, n), e);
      FreshOwned(vm, v, parents, Page(pid, n), e);
      SetDataWellFormed(v, e.frame, fr);
      var w := SetData(v, e.frame, fr);
      Counting.SameCounted(v, w);
      FewerOwned(v, w, parents);
      forall q | q != pid
        ensures Undisturbed(vm, w, q)
      {
        FreshUndisturbed(vm, w, Page(pid, n), e, q);
      }
    }
  }

  lemma {:induction false} ImageKeeps(vm: Vm, parents: map<nat, nat>, pid: nat, image: seq<(nat, Frame)>)
    requires WellFormed(vm) && InUse(vm, pid) && ImageOk(image) && Counted(vm) && Owned(vm, parents)
    ensures LoadImage(vm, pid, image).Some? ==>
      var w := LoadImage(vm, pid, image).value;
      && WellFormed(w) && Counted(w) && Owned(w, parents) && TopsSame(vm, w)
      && (forall q {:trigger Undisturbed(vm, w, q)} :: q != pid ==> Undisturbed(vm, w, q))
    decreases |image|
  {
    hide WellFormed, Counted, Owned, Undisturbed, MapPage, Reachable, TopsSame, InUse;
    if image == [] {
      AllUndisturbedSelf(vm);
      TopsSameSelf(vm);
    } else {
      var (n, fr) := image[0];
      if Page(pid, n) in vm.pages {
        ImageKeeps(vm, parents, pid, image[1..]);
      } else {
        LoadOne(vm, parents, pid, n, fr);
        var r := MapPage(vm, pid, n);
        if r.Some? {
          var v := SetData(r.value, r.value.pages[Page(pid, n)].frame, fr);
          ImageKeeps(v, parents, pid, image[1..]);
          var z := LoadImage(v, pid, image[1..]);
          if z.Some? {
            TopsSameTransitive(vm, v, z.value);
            forall q | q != pid
              ensures Undisturbed(vm, z.value, q)
            {
              UndisturbedTransitive(vm, v, z.value, q);
            }
          }
        }
      }
    }
  }

  lemma ExecKeeps(s: Sys, l: Layout, slot: nat, areas: seq<Vma>, heapTop: nat, image: seq<(nat, Frame)>)
    requires Inv(s, l) && Enabled(s, l, Exec(slot, areas, heapTop, image))
    ensures StepExec(s, l, slot, areas, heapTop, image).Some? ==>
      && NewSpace(s, l, slot).Some?
      && var v := NewSpace(s, l, slot).value; var r := StepExec(s, l, slot, areas, heapTop, image).value; var w := r.vm;
      && WellFormed(w) && Counted(w) && Owned(w, s.parents[s.nextPid := s.active])
      && TopsSame(v, w) && Undisturbed(v, w, KERNEL)
      && r == Started(s, w, Task(slot, areas, heapTop, true))
      && (forall q {:trigger Undisturbed(v, w, q)} :: q != s.nextPid ==> Undisturbed(v, w, q))
  {
    hide WellFormed, Counted, Owned, Undisturbed, TopsSame, NewSpace, LoadImage, AreasOk, InUse, ImageOk;
    hide AliasesOk, KernelOk;
    NewSpaceKeeps(s, l, slot);
    var n := NewSpace(s, l, slot);
    if n.Some? {
      ImageKeeps(n.value, s.parents[s.nextPid := s.active], s.nextPid, image);
      var r := LoadImage(n.value, s.nextPid, image);
      assert r.Some? ==> Undisturbed(n.value, r.value, KERNEL);
    }
  }

  lemma ExecInv(s: Sys, l: Layout, slot: nat, areas: seq<Vma>, heapTop: nat, image: seq<(nat, Frame)>)
    requires Inv(s, l) && Enabled(s, l, Exec(slot, areas, heapTop, image))
    ensures StepExec(s, l, slot, areas, heapTop, image).Some? ==>
      Inv(StepExec(s, l, slot, areas, heapTop, image).value, l)
  {
    hide WellFormed, Counted, Owned, Undisturbed, TopsSame, NewSpace, AreasOk, ImageOk, Started, AliasesOk, KernelOk, StepExec;
    ExecKeeps(s, l, slot, areas, heapTop, image);
    var r := StepExec(s, l, slot, areas, heapTop, image);
    if r.Some? {
      StartedInv(s, l, slot, r.value.vm, Task(slot, areas, heapTop, true));
    }
  }

  lemma ForkInv(s: Sys, l: Layout, slot: nat)
    requires Inv(s, l) && Enabled(s, l, Fork(slot))
    ensures StepFork(s, l, slot).Some? ==> Inv(StepFork(s, l, slot).value, l)
  {
    hide WellFormed, Counted, Owned, Undisturbed, TopsSame, NewSpace, AreasOk, Started, AliasesOk, KernelOk, StepFork;
    ForkKeeps(s, l, slot);
    var r := StepFork(s, l, slot);
    if r.Some? {
      var t := s.tasks[s.active];
      StartedInv(s, l, slot, r.value.vm, Task(slot, t.areas, t.heapTop, true));
    }
  }

  // ------------------------------------------------------------------- theorems

  // Whatever the processes do, and in whatever order, the invariant holds.
  lemma StepInv(s: Sys, l: Layout, e: Event)
    requires Inv(s, l) && Enabled(s, l, e)
    ensures Step(s, l, e).Some? ==> Inv(Step(s, l, e).value, l)
  {
    hide Inv, StepFork, StepExec, StepLoad, StepStore, StepMunmap, StepExit;
    match e
    case Fork(slot) => ForkInv(s, l, slot);
    case Exec(slot, areas, heapTop, image) => ExecInv(s, l, slot, areas, heapTop, image);
    case Load(a) => LoadInv(s, l, a);
    case Store(a, b) => StoreInv(s, l, a, b);
    case Mmap(length) => MmapInv(s, l, length);
    case Munmap(a, length) => MunmapInv(s, l, a, length);
    case Exit => ExitInv(s, l);
    case Switch(pid) => SwitchInv(s, l, pid);
    case KernelMap(n) => KernelMapInv(s, l, n);
    case KernelStore(a, b) => KernelStoreInv(s, l, a, b);
  }

  lemma KernelMapKeeps(vm: Vm, parents: map<nat, nat>, l: Layout, n: nat)
    requires WellFormed(vm) && Counted(vm) && Owned(vm, parents) && KernelOk(vm, l)
    requires n / 512 / 512 / 512 == KERNEL_SLOT && Page(KERNEL, n) !in vm.pages
    ensures Reachable(vm, KERNEL, n)
    ensures MapPage(vm, KERNEL, n).Some? ==>
      var v := MapPage(vm, KERNEL, n).value; var p := Page(KERNEL, n);
      && WellFormed(v) && Counted(v) && Owned(v, parents) && TopsSame(vm, v) && KernelApart(v)
      && p in v.pages && v.pages == vm.pages[p := v.pages[p]] && Mappable(v, v.pages[p].frame)
      && (forall q {:trigger Undisturbed(vm, v, q)} :: q != KERNEL ==> Undisturbed(vm, v, q))
  {
    hide WellFormed, Counted, Owned, Undisturbed, MapPage, Reachable, Mappable, FreeFrame, PageIn, Quiet, ZeroPrefix;
    hide EnsurePath, TopsSame, KernelApart;
    AliasReachable(vm, n);
    MapPageEffect(vm, KERNEL, n);
    PathTops(vm, KERNEL, n);
    MapPageTables(vm, KERNEL, n);
    var r, p := MapPage(vm, KERNEL, n), Page(KERNEL, n);
    if r.Some? {
      var v, e := r.value, r.value.pages[p];
      Counting.FreshCounted(vm, v, p, e);
      FreshOwned(vm, v, parents, p, e);
      FreshApart(vm, v, p, e);
      TopsTables(vm, EnsurePath(vm, KERNEL, n).value, v);
      forall q | q != KERNEL
        ensures Undisturbed(vm, v, q)
      {
        FreshUndisturbed(vm, v, p, e, q);
      }
    }
  }

  lemma TopsTables(vm: Vm, v: Vm, w: Vm)
    requires TopsSame(vm, v) && w.tables == v.tables
    ensures TopsSame(vm, w)
  {
  }

  lemma KernelMapInv(s: Sys, l: Layout, n: nat)
    requires Inv(s, l) && Enabled(s, l, KernelMap(n))
    ensures StepKernelMap(s, l, n).Some? ==> Inv(StepKernelMap(s, l, n).value, l)
  {
    hide WellFormed, Counted, Owned, Undisturbed, MapPage, Reachable, TasksOk, AliasesOk, Mappable, KernelApart, TopsSame;
    KernelMapKeeps(s.vm, s.parents, l, n);
    var r := MapPage(s.vm, KERNEL, n);
    if r.Some? {
      KernelMapRest(s, l, r.value, n);
    }
  }

  lemma KernelMapRest(s: Sys, l: Layout, v: Vm, n: nat)
    requires l.Valid() && TasksOk(s, l) && AliasesOk(s, l) && KernelOk(s.vm, l) && TopsSame(s.vm, v) && !l.IsAlias(n)
    requires Page(KERNEL, n) in v.pages && v.pages == s.vm.pages[Page(KERNEL, n) := v.pages[Page(KERNEL, n)]]
    requires Mappable(v, v.pages[Page(KERNEL, n)].frame) && KernelApart(v)
    ensures TasksOk(s.(vm := v), l) && AliasesOk(s.(vm := v), l) && KernelOk(v, l)
  {
    hide AreasOk, FreeFrame;
    var p := Page(KERNEL, n);
    forall i {:trigger l.Alias(i)} | 0 <= i < l.slots && Page(KERNEL, l.Alias(i)) in v.pages
      ensures i in s.owner && Top(s.owner[i]) in v.tables
      ensures v.pages[Page(KERNEL, l.Alias(i))].frame == v.tables[Top(s.owner[i])]
    {
      assert l.Alias(i) != n;
      assert Page(KERNEL, l.Alias(i)) in s.vm.pages;
    }
  }

  // A change of bytes only.
  lemma DataChange(s: Sys, l: Layout, f: nat, fr: Frame)
    requires Inv(s, l) && f < |s.vm.data|
    ensures Inv(s.(vm := SetData(s.vm, f, fr)), l)
  {
    hide WellFormed, Counted, Owned, AreasOk, KernelApart, Layout.IsAlias;
    var v := SetData(s.vm, f, fr);
    SetDataWellFormed(s.vm, f, fr);
    Counting.SameCounted(s.vm, v);
    FewerOwned(s.vm, v, s.parents);
    assert KernelApart(v) by { SamePagesApart(s.vm, v); }
  }

  lemma SamePagesApart(vm: Vm, v: Vm)
    requires KernelApart(vm) && v.pages == vm.pages
    ensures KernelApart(v)
  {
  }

  lemma KernelStoreInv(s: Sys, l: Layout, a: nat, b: Byte)
    requires Inv(s, l) && Enabled(s, l, KernelStore(a, b))
    ensures Inv(s.(vm := KernelStored(s.vm, a, b)), l)
  {
    FramesInData(s.vm);
    hide Inv, PageOf, Upper, Layout.IsAlias;
    var f := s.vm.pages[KernelPage(a)].frame;
    DataChange(s, l, f, s.vm.data[f][OffsetOf(a) := b]);
  }

  lemma SwitchInv(s: Sys, l: Layout, pid: nat)
    requires Inv(s, l)
    ensures Inv(s.(active := pid), l)
  {
    hide WellFormed, Counted, Owned;
  }

  // A run: every event is enabled where it happens and does not stop the machine.
  ghost predicate RunsTo(s: Sys, l: Layout, events: seq<Event>, t: Sys)
    requires Inv(s, l)
    decreases |events|
  {
    if events == [] then t == s
    else
      && Enabled(s, l, events[0]) && Step(s, l, events[0]).Some?
      && (StepInv(s, l, events[0]); RunsTo(Step(s, l, events[0]).value, l, events[1..], t))
  }

  lemma {:induction false} RunInv(s: Sys, l: Layout, events: seq<Event>, t: Sys)
    requires Inv(s, l) && RunsTo(s, l, events, t)
    ensures Inv(t, l)
    decreases |events|
  {
    hide Inv, Step, Enabled;
    if events != [] {
      StepInv(s, l, events[0]);
      RunInv(Step(s, l, events[0]).value, l, events[1..], t);
    }
  }

  // In every reachable state: a mapped frame is counted at least once for each entry that
  // holds it, is not free, and is not a table unless the kernel itself maps it.
  lemma ReachableCounts(s: Sys, l: Layout, events: seq<Event>, t: Sys, p: Page)
    requires Inv(s, l) && RunsTo(s, l, events, t) && p in t.vm.pages
    ensures var f := t.vm.pages[p].frame;
      && t.vm.base < f < t.vm.base + |t.vm.alloc.refs|
      && 1 <= |Holders(t.vm.pages, f)| <= RefCount(t.vm, f)
      && f - t.vm.base !in t.vm.alloc.free
      && (p.space != KERNEL ==> f !in t.vm.tables.Values)
  {
    hide Step, Enabled, TasksOk, AliasesOk, KernelOk, Owned, RunsTo;
    RunInv(s, l, events, t);
    var f := t.vm.pages[p].frame;
    PageFrame(t.vm, p);
    assert p in Holders(t.vm.pages, f);
    assert |Holders(t.vm.pages, f)| <= RefCount(t.vm, f);
  }

  // One step by anybody else, and what `q` can read is untouched, unless it is a store by
  // an ancestor of `q`.
  lemma StepIsolated(s: Sys, l: Layout, e: Event, q: nat)
    requires Inv(s, l) && Enabled(s, l, e) && Step(s, l, e).Some?
    requires q in s.tasks && s.tasks[q].live
    requires ByOwner(e) ==> q != s.active
    requires e.Store? ==> !Ancestor(s.parents, s.active, q)
    ensures var t := Step(s, l, e).value;
      && Undisturbed(s.vm, t.vm, q)
      && q in t.tasks && t.tasks[q].live && (forall p: nat :: p < s.nextPid ==> (p in t.parents <==> p in s.parents))
      && (forall p :: p in s.parents ==> p in t.parents && t.parents[p] == s.parents[p])
  {
    hide WellFormed, Counted, Owned, Undisturbed, AliasesOk, KernelOk, Ancestor, NewSpace, AreasOk, ImageOk;
    hide StepFork, StepExec, StepLoad, StepStore, Access, UnmapPages, ReleaseAreas;
    match e
    case Fork(slot) => ForkIsolated(s, l, slot, q);
    case Exec(slot, areas, heapTop, image) => ExecIsolated(s, l, slot, areas, heapTop, image, q);
    case Load(a) => LoadIsolated(s, l, a, q);
    case Store(a, b) => StoreStepIsolated(s, l, a, b, q);
    case Mmap(length) => UndisturbedSelf(s.vm, q);
    case Munmap(a, length) =>
      ActiveInUse(s, l);
      var t := s.tasks[s.active];
      var i := FirstCover(t.areas, a, a + length);
      UnmapPagesIsolated(s.vm, s.parents, s.active, AreaFirst(t.areas[i]), UnmapLimit(t.areas[i]));
    case Exit =>
      ActiveInUse(s, l);
      ReleaseIsolated(s.vm, s.parents, s.active, s.tasks[s.active].areas);
    case Switch(pid) => UndisturbedSelf(s.vm, q);
    case KernelMap(n) => KernelMapKeeps(s.vm, s.parents, l, n);
    case KernelStore(a, b) => KernelStoreStep(s, l, a, b, q);
  }

  lemma KernelStoreStep(s: Sys, l: Layout, a: nat, b: Byte, q: nat)
    requires Inv(s, l) && Enabled(s, l, KernelStore(a, b)) && q != KERNEL
    ensures Undisturbed(s.vm, KernelStored(s.vm, a, b), q)
  {
    FramesInData(s.vm);
    hide WellFormed, Counted, Owned, Undisturbed, TasksOk, AliasesOk, KernelOk, PageOf, Upper, Layout.IsAlias;
    KernelStoreIsolated(s.vm, s.parents, KernelPage(a), s.vm.data[s.vm.pages[KernelPage(a)].frame][OffsetOf(a) := b], q);
  }

  lemma ForkIsolated(s: Sys, l: Layout, slot: nat, q: nat)
    requires Inv(s, l) && Enabled(s, l, Fork(slot)) && StepFork(s, l, slot).Some?
    requires q in s.tasks && s.tasks[q].live
    ensures var t := StepFork(s, l, slot).value;
      Undisturbed(s.vm, t.vm, q) && exists task :: t == Started(s, t.vm, task)
  {
    hide WellFormed, Counted, Owned, Undisturbed, TopsSame, NewSpace, AreasOk, AliasesOk, KernelOk, StepFork;
    NewSpaceKeeps(s, l, slot);
    ForkKeeps(s, l, slot);
    assert Undisturbed(s.vm, NewSpace(s, l, slot).value, q);
    UndisturbedTransitive(s.vm, NewSpace(s, l, slot).value, StepFork(s, l, slot).value.vm, q);
  }

  lemma ExecIsolated(s: Sys, l: Layout, slot: nat, areas: seq<Vma>, heapTop: nat, image: seq<(nat, Frame)>, q: nat)
    requires Inv(s, l) && Enabled(s, l, Exec(slot, areas, heapTop, image))
    requires StepExec(s, l, slot, areas, heapTop, image).Some?
    requires q in s.tasks && s.tasks[q].live
    ensures var t := StepExec(s, l, slot, areas, heapTop, image).value;
      Undisturbed(s.vm, t.vm, q) && exists task :: t == Started(s, t.vm, task)
  {
    hide WellFormed, Counted, Owned, Undisturbed, TopsSame, NewSpace, AreasOk, AliasesOk, KernelOk, StepExec, ImageOk;
    NewSpaceKeeps(s, l, slot);
    ExecKeeps(s, l, slot, areas, heapTop, image);
    assert Undisturbed(s.vm, NewSpace(s, l, slot).value, q);
    UndisturbedTransitive(s.vm, NewSpace(s, l, slot).value, StepExec(s, l, slot, areas, heapTop, image).value.vm, q);
  }

  lemma LoadIsolated(s: Sys, l: Layout, a: nat, q: nat)
    requires Inv(s, l) && Enabled(s, l, Load(a)) && StepLoad(s, l, a).Some? && q != s.active
    ensures Undisturbed(s.vm, StepLoad(s, l, a).value.vm, q)
    ensures StepLoad(s, l, a).value == s.(vm := StepLoad(s, l, a).value.vm)
  {
    hide WellFormed, Counted, Owned, Undisturbed, TopsSame, Access, TasksOk, AliasesOk, KernelOk;
    AccessKeeps(s, l, a, false);
  }

  lemma StoreStepIsolated(s: Sys, l: Layout, a: nat, b: Byte, q: nat)
    requires Inv(s, l) && Enabled(s, l, Store(a, b)) && StepStore(s, l, a, b).Some? && q != s.active && q != KERNEL
    requires !Ancestor(s.parents, s.active, q)
    ensures Undisturbed(s.vm, StepStore(s, l, a, b).value.vm, q)
    ensures StepStore(s, l, a, b).value == s.(vm := StepStore(s, l, a, b).value.vm)
  {
    hide WellFormed, Counted, Owned, Undisturbed, TopsSame, Access, TasksOk, AliasesOk, KernelOk, Ancestor;
    AccessKeeps(s, l, a, true);
    InUseUser(s.vm, s.active);
    var v := Access(s.vm, s.active, s.tasks[s.active].areas, a, true).value;
    StoreIsolated(v, s.parents, s.active, a, b, q);
    UndisturbedTransitive(s.vm, v, StoreByte(v, s.active, a, b), q);
  }

  // A run in which `q` does nothing, and no ancestor of `q` stores anything.
  ghost predicate Spares(s: Sys, l: Layout, events: seq<Event>, q: nat)
    requires Inv(s, l)
    decreases |events|
  {
    events == [] || (
      && Enabled(s, l, events[0]) && Step(s, l, events[0]).Some?
      && (ByOwner(events[0]) ==> s.active != q)
      && (events[0].Store? ==> !Ancestor(s.parents, s.active, q))
      && (StepInv(s, l, events[0]); Spares(Step(s, l, events[0]).value, l, events[1..], q)))
  }

  // Isolation over whole runs: whatever children, siblings and strangers do, `q` reads the
  // same bytes at the same addresses afterwards.
  lemma {:induction false} RunIsolated(s: Sys, l: Layout, events: seq<Event>, t: Sys, q: nat)
    requires Inv(s, l) && RunsTo(s, l, events, t) && Spares(s, l, events, q)
    requires q in s.tasks && s.tasks[q].live
    ensures Undisturbed(s.vm, t.vm, q) && q in t.tasks && t.tasks[q].live
    decreases |events|
  {
    hide Inv, Step, Enabled, Undisturbed, Ancestor;
    if events == [] {
      InvSelf(s, l, q);
    } else {
      StepInv(s, l, events[0]);
      LiveIsUser(s, l, q);
      StepIsolated(s, l, events[0], q);
      var m := Step(s, l, events[0]).value;
      RunIsolated(m, l, events[1..], t, q);
      UndisturbedTransitive(s.vm, m.vm, t.vm, q);
    }
  }

  lemma InvSelf(s: Sys, l: Layout, q: nat)
    requires Inv(s, l)
    ensures Undisturbed(s.vm, s.vm, q)
  {
    UndisturbedSelf(s.vm, q);
  }

  lemma LiveIsUser(s: Sys, l: Layout, q: nat)
    requires Inv(s, l) && q in s.tasks
    ensures q != KERNEL
  {
  }

  // The same, byte by byte.
  lemma RunReadsSame(s: Sys, l: Layout, events: seq<Event>, t: Sys, q: nat, a: nat)
    requires Inv(s, l) && RunsTo(s, l, events, t) && Spares(s, l, events, q)
    requires q in s.tasks && s.tasks[q].live
    ensures Inv(t, l)
    ensures forall p {:trigger s.vm.pages[p]} :: p in s.vm.pages ==> s.vm.pages[p].frame < |s.vm.data|
    ensures forall p {:trigger t.vm.pages[p]} :: p in t.vm.pages ==> t.vm.pages[p].frame < |t.vm.data|
    ensures View(t.vm, q, a) == View(s.vm, q, a)
  {
    hide Step, Enabled, RunsTo, Spares, TasksOk, AliasesOk, KernelOk, Owned, Counted;
    RunInv(s, l, events, t);
    RunIsolated(s, l, events, t, q);
    FramesInData(s.vm);
    FramesInData(t.vm);
  }
}
