/**
  What the process system calls and the fault handler do to the abstract virtual
  memory: the address space of a new process, copy-on-write sharing of the areas of its
  parent, faults, and the release of areas.
 */
module Spaces {
  import opened Addressing
  import opened FrameAllocator
  import opened Memory
  import opened VirtualMemory
  import opened Wrappers

  // A virtual memory area, both ends inclusive, as sys/virt_mem.c tests them.
  datatype Vma = Vma(start: nat, end: nat) {

    predicate Holds(a: nat) {
      start <= a <= end
    }
  }

  const USER_LIMIT: nat := 0x8000_0000_0000

  // The page of an address of the process.
  function UserPage(space: nat, a: nat): Page { Page(space, PageOf(a)) }

  // ------------------------------------------------------------ a new space

  function DropSpace(vm: Vm, space: nat): Vm {
    vm.(tables := map t | t in vm.tables && t.space != space :: vm.tables[t],
        pages := map p | p in vm.pages && p.space != space :: vm.pages[p])
  }

  lemma DropWellFormed(vm: Vm, space: nat)
    requires WellFormed(vm) && space != KERNEL
    ensures WellFormed(DropSpace(vm, space))
  {
    hide FreeFrame, Frames.Valid;
    var v := DropSpace(vm, space);
    FreeKept(vm, v);
    assert forall t: Table {:trigger Placed(v, t)} :: t.space != space && Placed(vm, t) ==> Placed(v, t);
    assert KERNEL_TOP.space == KERNEL;
  }

  lemma DropCounted(vm: Vm, space: nat)
    requires Counted(vm)
    ensures Counted(DropSpace(vm, space))
  {
    var v := DropSpace(vm, space);
    forall f {:trigger Holders(v.pages, f)} | v.base <= f < v.base + |v.alloc.refs|
      ensures |Holders(v.pages, f)| <= RefCount(v, f)
    {
      assert |Holders(vm.pages, f)| <= RefCount(vm, f);
      HoldersSubset(v.pages, vm.pages, f);
    }
  }

  lemma HoldersSubset(small: map<Page, Pte>, big: map<Page, Pte>, f: nat)
    requires forall p :: p in small ==> p in big && big[p] == small[p]
    ensures |Holders(small, f)| <= |Holders(big, f)|
  {
    SubsetSize(Holders(small, f), Holders(big, f));
  }

  lemma SubsetSize<T>(a: set<T>, b: set<T>)
    requires a <= b
    ensures |a| <= |b|
  {
    assert b == a + (b - a);
  }

  // Only the kernel holds the frame.
  ghost predicate KernelOnly(vm: Vm, f: nat) {
    forall p {:trigger vm.pages[p]} :: p in vm.pages && vm.pages[p].frame == f ==> p.space == KERNEL
  }

  // The kernel page `alias` is where the top-level table of a new space is filled in.
  // If it is mapped, what it shows is the table of a space that is gone.
  ghost predicate Adoptable(vm: Vm, alias: nat, pid: nat) {
    && alias / 512 / 512 / 512 == KERNEL_SLOT
    && pid != KERNEL && Top(pid) !in vm.tables
    && (Page(KERNEL, alias) in vm.pages ==>
          var f := vm.pages[Page(KERNEL, alias)].frame;
          Mappable(vm, f) && KernelOnly(vm, f))
  }

  function Adopt(vm: Vm, f: nat, pid: nat): Vm {
    vm.(tables := vm.tables[Top(pid) := f])
  }

  lemma AdoptWellFormed(vm: Vm, f: nat, pid: nat)
    requires WellFormed(vm) && Mappable(vm, f) && KernelOnly(vm, f)
    requires pid != KERNEL && Top(pid) !in vm.tables
    ensures WellFormed(Adopt(vm, f, pid))
  {
    hide FreeFrame, PoolOk;
    var w := Adopt(vm, f, pid);
    PoolKept(vm, w);
    FreeKept(vm, w);
    MappableInRange(vm, f);
    AdoptTables(vm, f, pid);
    hide TablesOk;
    assert PagesOk(w);
  }

  lemma AdoptTables(vm: Vm, f: nat, pid: nat)
    requires TablesOk(vm) && Mappable(vm, f) && f < |vm.data| && pid != KERNEL && Top(pid) !in vm.tables
    ensures TablesOk(Adopt(vm, f, pid))
  {
    hide FreeFrame;
    var w := Adopt(vm, f, pid);
    FreeKept(vm, w);
    assert Placed(w, Top(pid));
    assert forall t {:trigger Placed(w, t)} :: Placed(vm, t) ==> Placed(w, t);
  }

  lemma MappableInRange(vm: Vm, f: nat)
    requires WellFormed(vm) && Mappable(vm, f)
    ensures f < |vm.data|
  {
  }

  // sys/task_manager.c, mappageTable.
  ghost function AddSpace(vm: Vm, alias: nat, pid: nat): (r: Option<Vm>)
    requires WellFormed(vm) && Adoptable(vm, alias, pid)
    ensures r.Some? ==> WellFormed(r.value)
  {
    var v :- MapPage(vm, KERNEL, alias);
    MappedAlias(vm, alias, pid);
    AdoptWellFormed(v, v.pages[Page(KERNEL, alias)].frame, pid);
    var w := Adopt(v, v.pages[Page(KERNEL, alias)].frame, pid);
    SameLengthData(w, vm.data);
    Some(w.(data := vm.data))
  }

  lemma SameLengthData(vm: Vm, data: seq<Frame>)
    requires WellFormed(vm) && |data| == |vm.data|
    ensures WellFormed(vm.(data := data))
  {
    hide PoolOk, FreeFrame;
    var w := vm.(data := data);
    PoolKept(vm, w);
    FreeKept(vm, w);
    assert forall t {:trigger Placed(w, t)} :: Placed(vm, t) ==> Placed(w, t);
  }

  lemma PathTables(vm: Vm, space: nat, n: nat, pid: nat)
    requires WellFormed(vm) && Reachable(vm, space, n) && Top(pid) !in vm.tables
    ensures EnsurePath(vm, space, n).Some? ==> Top(pid) !in EnsurePath(vm, space, n).value.tables
  {
    hide WellFormed, Reachable, Placed, TakeFrame, NextFrame, Frames.Exhausted, Grown;
    PathPlaced(vm, space, n);
    var v3 := EnsureTable(vm, Pdpt(space, n));
    if v3.Some? {
      PathPlaced(v3.value, space, n);
      var v2 := EnsureTable(v3.value, Pd(space, n));
      if v2.Some? {
        PathPlaced(v2.value, space, n);
      }
    }
  }

  lemma AliasReachable(vm: Vm, alias: nat)
    requires alias / 512 / 512 / 512 == KERNEL_SLOT
    ensures Reachable(vm, KERNEL, alias) && PageIn(KERNEL, alias) == Page(KERNEL, alias)
  {
  }

  lemma FreeNotHeld(vm: Vm, p: Page, e: Pte)
    requires WellFormed(vm) && FreeFrame(vm, e.frame) && p.space == KERNEL
    ensures KernelOnly(vm.(pages := vm.pages[p := e]), e.frame)
  {
    hide PoolOk, TablesOk;
  }

  lemma MappedAlias(vm: Vm, alias: nat, pid: nat)
    requires WellFormed(vm) && Adoptable(vm, alias, pid)
    ensures Reachable(vm, KERNEL, alias) && PageIn(KERNEL, alias) == Page(KERNEL, alias)
    ensures MapPage(vm, KERNEL, alias).Some? ==>
      var v := MapPage(vm, KERNEL, alias).value; var p := Page(KERNEL, alias);
      && p in v.pages && Mapped(vm, v, p, v.pages[p])
      && Mappable(v, v.pages[p].frame) && KernelOnly(v, v.pages[p].frame) && Top(pid) !in v.tables
  {
    hide WellFormed, MapPage, EnsurePath, Reachable, Mappable, Quiet, FreeFrame, PageIn, ZeroPrefix;
    var p := Page(KERNEL, alias);
    AliasReachable(vm, alias);
    MapPageTables(vm, KERNEL, alias);
    PathTables(vm, KERNEL, alias, pid);
    if p in vm.pages {
      MapPagePresent(vm, KERNEL, alias);
    } else {
      MapPageEffect(vm, KERNEL, alias);
      var r := MapPage(vm, KERNEL, alias);
      if r.Some? {
        FreeNotHeld(vm, p, r.value.pages[p]);
      }
    }
  }

  // ------------------------------------------------------ copy-on-write sharing

  const PAGE_LIMIT: nat := 0x8_0000_0000

  // A space of a process, in use.
  ghost predicate InUse(vm: Vm, space: nat) {
    space != KERNEL && Top(space) in vm.tables
  }

  lemma UserReachable(vm: Vm, space: nat, n: nat)
    requires InUse(vm, space) && n < PRIVATE_LIMIT
    ensures Reachable(vm, space, n) && PageIn(space, n) == Page(space, n)
  {
    assert n / 512 / 512 / 512 < 510;
  }

  lemma PrivateReachable(vm: Vm, space: nat, a: nat)
    requires InUse(vm, space) && Private(a)
    ensures Reachable(vm, space, PageOf(a)) && PageIn(space, PageOf(a)) == UserPage(space, a)
  {
    hide PageOf;
    PrivatePage(a);
    UserReachable(vm, space, PageOf(a));
  }

  lemma UserMappable(vm: Vm, p: Page)
    requires WellFormed(vm) && p in vm.pages && p.space != KERNEL
    ensures Mappable(vm, vm.pages[p].frame)
    ensures vm.base < vm.pages[p].frame < vm.base + |vm.alloc.refs| <= |vm.data|
  {
    hide PoolOk, FreeFrame;
    PageFrame(vm, p);
  }

  // One more count for each page of `space` from `a` up to `b`.
  ghost function IncPages(vm: Vm, space: nat, a: nat, b: nat): (r: Vm)
    requires WellFormed(vm)
    ensures WellFormed(r) && r == vm.(alloc := r.alloc) && |r.alloc.refs| == |vm.alloc.refs|
    decreases b - a
  {
    if a >= b then vm
    else if Page(space, a) !in vm.pages then IncPages(vm, space, a + 1, b)
    else
      hide PoolOk, TablesOk, PagesOk;
      PageFrame(vm, Page(space, a));
      RefWellFormed(vm, vm.pages[Page(space, a)].frame);
      IncPages(IncRef(vm, vm.pages[Page(space, a)].frame), space, a + 1, b)
  }

  // `child` is shown the pages `parent` has from `a` up to `b`, read-only.
  ghost function CowPages(vm: Vm, parent: nat, child: nat, a: nat, b: nat): (r: Option<Vm>)
    requires WellFormed(vm) && InUse(vm, child) && parent != KERNEL && b <= PAGE_LIMIT
    ensures r.Some? ==> WellFormed(r.value) && InUse(r.value, child)
    decreases b - a
  {
    if a >= b then Some(vm)
    else if Page(parent, a) !in vm.pages then CowPages(vm, parent, child, a + 1, b)
    else
      hide WellFormed, MapCow, Mappable, Reachable, PageIn, Quiet;
      UserReachable(vm, child, a);
      UserMappable(vm, Page(parent, a));
      MapCowEffect(vm, child, a, vm.pages[Page(parent, a)].frame);
      var v :- MapCow(vm, child, a, vm.pages[Page(parent, a)].frame);
      CowPages(v, parent, child, a + 1, b)
  }

  predicate Bounded(areas: seq<Vma>) {
    forall i :: 0 <= i < |areas| ==> areas[i].end < USER_LIMIT
  }

  function AreaFirst(v: Vma): nat { v.start / 4096 }

  // The page after the last one an area reaches into.
  function AreaLimit(v: Vma): nat {
    if v.start <= v.end then v.end / 4096 + 1 else 0
  }

  // The page after the last one unmap_phyaddr_range takes away.
  function UnmapLimit(v: Vma): nat { (v.end + 4095) / 4096 }

  // sys/task_manager.c, copy_vma.
  ghost function CopyAreas(vm: Vm, parent: nat, child: nat, areas: seq<Vma>): (r: Option<Vm>)
    requires WellFormed(vm) && InUse(vm, child) && parent != KERNEL && Bounded(areas)
    ensures r.Some? ==> WellFormed(r.value) && InUse(r.value, child)
    decreases |areas|
  {
    if areas == [] then Some(vm)
    else
      var a, b := AreaFirst(areas[0]), AreaLimit(areas[0]);
      var v :- CowPages(IncPages(vm, parent, a, b), parent, child, a, b);
      CopyAreas(v, parent, child, areas[1..])
  }

  // ------------------------------------------------------------ release

  ghost function ReleaseAreas(vm: Vm, space: nat, areas: seq<Vma>): (r: Vm)
    requires WellFormed(vm) && Counted(vm) && space != KERNEL
    ensures WellFormed(r) && Counted(r) && r.tables == vm.tables
    decreases |areas|
  {
    if areas == [] then vm
    else ReleaseAreas(UnmapPages(vm, space, AreaFirst(areas[0]), UnmapLimit(areas[0])), space, areas[1..])
  }

  // The first area that covers both ends, as remove_from_vma_list looks for it.
  function FirstCover(areas: seq<Vma>, lo: nat, hi: nat): (i: nat)
    ensures i <= |areas|
    ensures i < |areas| ==> areas[i].start <= lo && areas[i].end >= hi
    ensures forall j :: 0 <= j < i ==> !(areas[j].start <= lo && areas[j].end >= hi)
  {
    if areas == [] then 0
    else if areas[0].start <= lo && areas[0].end >= hi then 0
    else 1 + FirstCover(areas[1..], lo, hi)
  }

  function Without(areas: seq<Vma>, i: nat): seq<Vma>
    requires i < |areas|
  {
    areas[..i] + areas[i + 1..]
  }

  // ------------------------------------------------------------- faults

  predicate Covered(areas: seq<Vma>, a: nat) {
    exists i :: 0 <= i < |areas| && areas[i].Holds(a)
  }

  // Whether an access of the process to an address of its own succeeds without a fault.
  predicate Permitted(vm: Vm, space: nat, a: nat, write: bool) {
    Private(a) && UserPage(space, a) in vm.pages && (write ==> vm.pages[UserPage(space, a)].writable)
  }

  // An access by the process of `space`, with the fault handler's help if it needs it.
  // None when the handler stops the machine: no area, or memory exhausted.
  ghost function Access(vm: Vm, space: nat, areas: seq<Vma>, a: nat, write: bool): (r: Option<Vm>)
    requires WellFormed(vm) && InUse(vm, space) && Private(a)
    ensures r.Some? ==> WellFormed(r.value)
  {
    if Permitted(vm, space, a, write) then Some(vm)
    else if !Covered(areas, a) then None
    else if UserPage(space, a) in vm.pages then Split(vm, UserPage(space, a))
    else
      PrivateReachable(vm, space, a);
      MapPage(vm, space, PageOf(a))
  }

  // One fault is enough: afterwards the access is permitted.
  lemma AccessPermits(vm: Vm, space: nat, areas: seq<Vma>, a: nat, write: bool)
    requires WellFormed(vm) && InUse(vm, space) && Private(a)
    ensures Access(vm, space, areas, a, write).Some? ==>
      var v := Access(vm, space, areas, a, write).value;
      && Permitted(v, space, a, write) && WellFormed(v) && InUse(v, space)
      && v.pages[UserPage(space, a)].frame < |v.data|
  {
    hide WellFormed, MapPage, Reachable, Mappable, FreeFrame, PageIn, ZeroPrefix, Quiet, Split, Covered;
    PrivateReachable(vm, space, a);
    var p := UserPage(space, a);
    if p in vm.pages {
      PageFrame(vm, p);
      SplitEffect(vm, p);
    } else {
      MapPageEffect(vm, space, PageOf(a));
    }
  }

  // The access is not permitted, and either no area holds the address or the frames run out,
  // at a missing table or at the page itself.
  predicate Fails(vm: Vm, space: nat, areas: seq<Vma>, a: nat, write: bool) {
    && !Permitted(vm, space, a, write)
    && (!Covered(areas, a) || |vm.alloc.free| < 6 + Missing(vm, space, PageOf(a)))
  }

  // This is exactly when the handler stops the machine.
  lemma AccessFailsIff(vm: Vm, space: nat, areas: seq<Vma>, a: nat, write: bool)
    requires WellFormed(vm) && InUse(vm, space) && Private(a)
    ensures Access(vm, space, areas, a, write) == None <==> Fails(vm, space, areas, a, write)
    ensures Access(vm, space, areas, a, write) == None <==>
      && !Permitted(vm, space, a, write)
      && ((forall i :: 0 <= i < |areas| ==> a < areas[i].start || areas[i].end < a)
          || |vm.alloc.free| < 6 + Missing(vm, space, PageOf(a)))
  {
    hide WellFormed, MapPage, Split, Reachable, Missing, PageIn, PageOf, Private;
    assert Covered(areas, a) <==> exists i :: 0 <= i < |areas| && areas[i].start <= a <= areas[i].end;
    PrivateReachable(vm, space, a);
    MapPageIff(vm, space, PageOf(a));
    if UserPage(space, a) in vm.pages {
      SplitIff(vm, UserPage(space, a));
    }
  }
}
