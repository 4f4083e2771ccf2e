/**
  The memory half of sys/task_manager.c, sys/syscall.c and sys/yomama.c: new address
  spaces, the copying of areas at a fork, page faults, and the release at an exit, run
  against physical memory through the page tables in use.
 */
module TaskMemory {
  import opened Addressing
  import opened Coupling
  import opened FrameAllocator
  import opened Hardware
  import opened Isolation
  import opened Memory
  import opened Paging
  import opened Runs
  import opened Spaces
  import opened VirtualMemory
  import opened VmaLists
  import opened Wrappers

  // ---------------------------------------------------------------------- faults

  // What the processor pushes: bit 0 for a page that is present, bit 1 for a write, bit 2
  // for user mode (Intel SDM volume 3A, section 4.7).
  function ErrorCode(hit: Option<Hit>, write: bool): nat {
    (if hit.Some? then 1 else 0) + (if write then 2 else 0) + 4
  }

  // A user access goes through without a fault.
  predicate Grants(hit: Option<Hit>, write: bool) {
    hit.Some? && hit.value.user && (write ==> hit.value.writable)
  }

  lemma PrivateGrants(ram: Ram, vm: Vm, space: nat, a: nat, write: bool)
    requires Coupled(ram, vm) && Top(space) in vm.tables && Private(a)
    ensures vm.tables[Top(space)] < |ram|
    ensures var hit := Translate(ram, vm.tables[Top(space)], a);
            && (Grants(hit, write) <==> Permitted(vm, space, a, write))
            && (hit.Some? <==> UserPage(space, a) in vm.pages)
            && (hit.Some? ==> hit.value.frame == vm.pages[UserPage(space, a)].frame)
            && (ErrorCode(hit, write) == 7 <==> UserPage(space, a) in vm.pages && write)
  {
    hide Coupled, Translate, Canonical, HwPml4, PageOf, Reachable;
    PrivateAddress(ram, vm, space, a);
    TranslateIs(ram, vm, space, a);
  }

  // What user mode may do at any address: at its own, what the page map permits; through
  // entry 511, what the entries of the kernel say, which are user entries like all others;
  // through entry 510, everything, on page tables.
  lemma GrantsIsPermitted(ram: Ram, vm: Vm, space: nat, a: nat, write: bool)
    requires Coupled(ram, vm) && Top(space) in vm.tables
    ensures vm.tables[Top(space)] < |ram|
    ensures var hit := Translate(ram, vm.tables[Top(space)], a);
            && (!Canonical(a) ==> !Grants(hit, write))
            && (Private(a) ==>
                  && (Grants(hit, write) <==> Permitted(vm, space, a, write))
                  && (Grants(hit, write) ==> hit.value.frame == vm.pages[UserPage(space, a)].frame))
            && (Canonical(a) && HwPml4(a) == KERNEL_SLOT ==>
                  var p := Page(KERNEL, PageOf(a));
                  && (Grants(hit, write) <==> p in vm.pages && (write ==> vm.pages[p].writable))
                  && (Grants(hit, write) ==> hit.value.frame == vm.pages[p].frame))
            && (Canonical(a) && HwPml4(a) == SELF_SLOT ==>
                  && (Grants(hit, write) <==> hit.Some?)
                  && (Grants(hit, write) ==> IsTable(vm, hit.value.frame)))
  {
    hide Coupled, Walk, PageOf, HwPml4, HwPdpt, HwPd, HwPt, IsTable, Canonical, Private;
    PrivateIff(a);
    SelfWalk(ram, vm, space, HwPdpt(a), HwPd(a), HwPt(a));
    if Private(a) {
      PrivateGrants(ram, vm, space, a, write);
    } else if Canonical(a) && HwPml4(a) == KERNEL_SLOT {
      TranslateIs(ram, vm, space, a);
      PageFields(a);
    }
  }

  lemma UserSpace(ram: Ram, vm: Vm, space: nat)
    requires Coupled(ram, vm) && Top(space) in vm.tables
    ensures WellFormed(vm) && InUse(vm, space)
  {
    LowAddress(ram, vm, space, 0);
  }

  lemma FaultParts(ram: Ram, vm: Vm, space: nat, areas: seq<Vma>, a: nat, write: bool)
    requires Coupled(ram, vm) && Top(space) in vm.tables && Private(a)
    requires WellFormed(vm) && InUse(vm, space) && !Permitted(vm, space, a, write)
    ensures !Covered(areas, a) ==> Access(vm, space, areas, a, write) == None
    ensures Covered(areas, a) && UserPage(space, a) in vm.pages ==>
      write && !vm.pages[UserPage(space, a)].writable && Access(vm, space, areas, a, write) == Split(vm, UserPage(space, a))
    ensures Covered(areas, a) && UserPage(space, a) !in vm.pages ==>
      Reachable(vm, space, PageOf(a)) && Access(vm, space, areas, a, write) == MapPage(vm, space, PageOf(a))
    ensures PageOf(a / 4096 * 4096) == PageOf(a) && Canonical(a / 4096 * 4096) && PageIn(space, PageOf(a)) == UserPage(space, a)
    ensures Reachable(vm, space, PageOf(a))
  {
    hide PageOf, HwPml4, Canonical;
    PrivateAddress(ram, vm, space, a);
    PageStart(a);
  }

  // No area of a process holds an address outside its own part.
  ghost predicate AreasPrivate(areas: seq<Vma>, a: nat) {
    Private(a) || !Covered(areas, a)
  }

  // sys/yomama.c, pagemama, for a fault in user mode.  False when the machine stops: no
  // area holds the address, or memory is exhausted.
  method PageFault(m: Mmu, heap: VmaHeap, task: nat, addr: nat, errCode: nat, ghost write: bool) returns (ok: bool)
    requires m.Valid() && heap.Valid() && task < heap.heads.Length == |heap.shape.lists| && Canonical(addr)
    requires WellFormed(m.vm) && InUse(m.vm, m.space) && AreasPrivate(heap.Areas(task), addr)
    requires !Grants(Translate(m.ram, m.cr3, addr), write)
    requires errCode == ErrorCode(Translate(m.ram, m.cr3, addr), write)
    modifies m`ram, m`vm, m.cowPage, m.frames, m.frames.pageList
    ensures ok ==> m.Valid() && Private(addr) && Access(old(m.vm), m.space, old(heap.Areas(task)), addr, write) == Some(m.vm)
    ensures !Private(addr) ==> !ok && m.ram == old(m.ram) && m.vm == old(m.vm)
    ensures !ok && Private(addr) ==> Access(old(m.vm), m.space, old(heap.Areas(task)), addr, write) == None
    ensures var areas := old(heap.Areas(task));
            (forall i {:trigger areas[i]} :: 0 <= i < |areas| ==> addr < areas[i].start || areas[i].end < addr) ==>
              !ok && m.ram == old(m.ram) && m.vm == old(m.vm)
  {
    hide Coupled, WellFormed, Access, Reachable, Canonical, PageOf, PageIn, Covered, Permitted, Translate, Split, MapPage;
    hide VmaHeap.Valid, VmaHeap.Areas, PhysicalMemoryManager.Valid, PhysicalMemoryManager.View, ErrorCode, Grants;
    if Private(addr) {
      PrivateGrants(m.ram, m.vm, m.space, addr, write);
      FaultParts(m.ram, m.vm, m.space, heap.Areas(task), addr, write);
    }
    ghost var areas := heap.Areas(task);
    var found := heap.IsPageInVmaList(task, addr);
    if !found {
      return false;
    }
    assert exists i :: 0 <= i < |areas| && areas[i].start <= addr <= areas[i].end;
    if errCode == 7 {
      var cow := m.CheckCow(addr);
      ok := true;
      if cow {
        ok := m.Cow(addr);
      }
    } else {
      var page := m.MapPhyaddr(addr / 4096 * 4096);
      ok := page.Some?;
    }
  }

  // The same for a fault of the kernel, before its first process or while it fills an address
  // space in: a page is mapped wherever it touches one, in the shared part for all spaces.
  method KernelFault(m: Mmu, addr: nat) returns (ok: bool)
    requires m.Valid() && Canonical(addr) && Reachable(m.vm, m.space, PageOf(addr))
    requires PageIn(m.space, PageOf(addr)) !in m.vm.pages
    modifies m`ram, m`vm, m.frames, m.frames.pageList
    ensures WellFormed(old(m.vm)) && (ok <==> MapPage(old(m.vm), m.space, PageOf(addr)).Some?)
    ensures ok ==> m.Valid() && MapPage(old(m.vm), m.space, PageOf(addr)) == Some(m.vm)
    ensures HwPml4(addr) == KERNEL_SLOT ==>
      && Reachable(old(m.vm), KERNEL, PageOf(addr))
      && MapPage(old(m.vm), KERNEL, PageOf(addr)) == MapPage(old(m.vm), m.space, PageOf(addr))
  {
    hide Coupled, TablesOk, PagesOk, Reachable, Canonical, PageOf, PageIn, MapPage, HwPml4;
    hide PhysicalMemoryManager.Valid, PhysicalMemoryManager.View;
    PageStart(addr);
    KernelSlotAny(m.ram, m.vm, m.space, addr);
    var page := m.MapPhyaddr(addr / 4096 * 4096);
    ok := page.Some?;
  }

  lemma KernelSlotAny(ram: Ram, vm: Vm, space: nat, va: nat)
    requires Coupled(ram, vm)
    ensures WellFormed(vm)
    ensures HwPml4(va) == KERNEL_SLOT ==>
      && Reachable(vm, space, PageOf(va)) && Reachable(vm, KERNEL, PageOf(va))
      && MapPage(vm, KERNEL, PageOf(va)) == MapPage(vm, space, PageOf(va))
  {
    hide Canonical, HwPml4, PageOf, MapPage;
    PageFields(va);
    if HwPml4(va) == KERNEL_SLOT {
      KernelPath(vm, space, PageOf(va));
    }
  }

  // A user load: at most one fault, and then the byte.  Outside its own part a process reads
  // whatever the walk grants.
  method UserLoad(m: Mmu, heap: VmaHeap, task: nat, a: nat) returns (r: Option<Byte>)
    requires m.Valid() && heap.Valid() && task < heap.heads.Length == |heap.shape.lists| && Canonical(a)
    requires WellFormed(m.vm) && InUse(m.vm, m.space) && AreasPrivate(heap.Areas(task), a)
    modifies m`ram, m`vm, m.cowPage, m.frames, m.frames.pageList
    ensures !Private(a) ==> m.ram == old(m.ram) && m.vm == old(m.vm) && m.cr3 < |m.ram|
    ensures !Private(a) ==>
      var hit := Translate(m.ram, m.cr3, a);
      r == if Grants(hit, false) then Some(m.ram[hit.value.frame][OffsetOf(a)]) else None
    ensures Private(a) ==> (r.None? <==> old(Fails(m.vm, m.space, heap.Areas(task), a, false)))
    ensures Private(a) && r.Some? ==>
      && m.Valid() && Access(old(m.vm), m.space, old(heap.Areas(task)), a, false) == Some(m.vm)
      && Isolation.View(m.vm, m.space, a) == r
  {
    hide Coupled, WellFormed, Access, Translate, VmaHeap.Valid, VmaHeap.Areas, Permitted, Fails;
    hide PhysicalMemoryManager.Valid, PhysicalMemoryManager.View, ErrorCode;
    ghost var vm0, areas := m.vm, heap.Areas(task);
    if Private(a) {
      PrivateGrants(m.ram, m.vm, m.space, a, false);
      AccessPermits(m.vm, m.space, areas, a, false);
      AccessFailsIff(m.vm, m.space, areas, a, false);
      PermittedAccess(vm0, m.space, areas, a, false);
    }
    if !Grants(Translate(m.ram, m.cr3, a), false) {
      var ok := PageFault(m, heap, task, a, ErrorCode(Translate(m.ram, m.cr3, a), false), false);
      if !ok {
        return None;
      }
      PrivateGrants(m.ram, m.vm, m.space, a, false);
      PermittedAccess(m.vm, m.space, areas, a, false);
    }
    if Private(a) {
      ByteSeen(m.ram, m.vm, m.space, a);
    }
    r := Some(m.ReadByte(a));
  }

  // A user store: at most one fault, and then the byte is there.  Outside its own part a
  // process writes whatever the walk grants, and the picture may be gone.
  method UserStore(m: Mmu, heap: VmaHeap, task: nat, a: nat, b: Byte) returns (ok: bool)
    requires m.Valid() && heap.Valid() && task < heap.heads.Length == |heap.shape.lists| && Canonical(a)
    requires WellFormed(m.vm) && InUse(m.vm, m.space) && AreasPrivate(heap.Areas(task), a)
    modifies m`ram, m`vm, m.cowPage, m.frames, m.frames.pageList
    ensures !Private(a) ==>
      && old(m.cr3 < |m.ram|)
      && var hit := old(Translate(m.ram, m.cr3, a));
      && (ok <==> Grants(hit, true))
      && m.vm == old(m.vm)
      && m.ram == if ok then old(m.ram)[hit.value.frame := old(m.ram)[hit.value.frame][OffsetOf(a) := b]] else old(m.ram)
    ensures Private(a) ==> (!ok <==> old(Fails(m.vm, m.space, heap.Areas(task), a, true)))
    ensures ok && Private(a) ==>
      && m.Valid()
      && var v := Access(old(m.vm), m.space, old(heap.Areas(task)), a, true);
         v.Some? && UserPage(m.space, a) in v.value.pages && v.value.pages[UserPage(m.space, a)].frame < |v.value.data|
         && m.vm == StoreByte(v.value, m.space, a, b)
  {
    hide Coupled, WellFormed, Access, Translate, VmaHeap.Valid, VmaHeap.Areas, Permitted, Fails;
    hide PhysicalMemoryManager.Valid, PhysicalMemoryManager.View, ErrorCode, IsTable;
    ghost var vm0, areas := m.vm, heap.Areas(task);
    if Private(a) {
      PrivateGrants(m.ram, m.vm, m.space, a, true);
      AccessPermits(m.vm, m.space, areas, a, true);
      AccessFailsIff(m.vm, m.space, areas, a, true);
      PermittedAccess(vm0, m.space, areas, a, true);
    }
    if !Grants(Translate(m.ram, m.cr3, a), true) {
      ok := PageFault(m, heap, task, a, ErrorCode(Translate(m.ram, m.cr3, a), true), true);
      if !ok {
        return;
      }
      PrivateGrants(m.ram, m.vm, m.space, a, true);
      PermittedAccess(m.vm, m.space, areas, a, true);
    }
    if Private(a) {
      ByteSeen(m.ram, m.vm, m.space, a);
      ghost var f := m.vm.pages[UserPage(m.space, a)].frame;
      SetDataCoupled(m.ram, m.vm, f, m.vm.data[f][OffsetOf(a) := b]);
    }
    m.WriteByte(a, b);
    if Private(a) {
      m.vm := StoreByte(m.vm, m.space, a, b);
    }
    ok := true;
  }

  lemma PermittedAccess(vm: Vm, space: nat, areas: seq<Vma>, a: nat, write: bool)
    requires WellFormed(vm) && InUse(vm, space) && Private(a)
    ensures Permitted(vm, space, a, write) ==> Access(vm, space, areas, a, write) == Some(vm) && UserPage(space, a) in vm.pages
  {
  }

  // The byte that a user access reaches.
  lemma ByteSeen(ram: Ram, vm: Vm, space: nat, a: nat)
    requires Coupled(ram, vm) && Top(space) in vm.tables && Private(a) && UserPage(space, a) in vm.pages
    ensures vm.tables[Top(space)] < |ram| && Translate(ram, vm.tables[Top(space)], a).Some?
    ensures var f := vm.pages[UserPage(space, a)].frame;
            && Translate(ram, vm.tables[Top(space)], a).value.frame == f < |vm.data|
            && ram[f] == vm.data[f] && !IsTable(vm, f)
            && Isolation.View(vm, space, a) == Some(ram[f][OffsetOf(a)])
  {
    hide Translate;
    PrivateGrants(ram, vm, space, a, false);
    UserSpace(ram, vm, space);
    UserFrame(ram, vm, UserPage(space, a));
  }

  // ------------------------------------------------------- sharing at a fork

  // change_ptable
  method ChangePtable(m: Mmu, addr: nat, ghost space: nat)
    requires m.Valid() && Top(space) in m.vm.tables && addr == 4096 * m.vm.tables[Top(space)]
    modifies m`cr3, m`space
    ensures m.Valid() && m.space == space
  {
    CoupledInRam(m.ram, m.vm, Top(space));
    m.cr3 := addr / 4096;
    m.space := space;
  }

  // Two pages of a space never show one frame.
  ghost predicate Injective(vm: Vm, space: nat) {
    forall i: nat, j: nat {:trigger vm.pages[Page(space, i)], vm.pages[Page(space, j)]} ::
      (&& Page(space, i) in vm.pages && Page(space, j) in vm.pages
       && vm.pages[Page(space, i)].frame == vm.pages[Page(space, j)].frame) ==> i == j
  }

  lemma OwnedInjective(vm: Vm, parents: map<nat, nat>, space: nat)
    requires Owned(vm, parents) && space != KERNEL
    ensures Injective(vm, space)
  {
  }

  // Of the pages from `a` up to `n`, the last that is mapped is `last`; -1 if none is.
  ghost predicate LastSeen(vm: Vm, space: nat, a: nat, n: nat, last: int) {
    && (last == -1 || (a <= last < n && Page(space, last) in vm.pages))
    && forall k: nat {:trigger Page(space, k)} :: a <= k < n && k > last ==> Page(space, k) !in vm.pages
  }

  function FrameAt(vm: Vm, space: nat, last: int): nat {
    if last >= 0 && Page(space, last) in vm.pages then vm.pages[Page(space, last)].frame else 0
  }

  // The page a byte-stepping loop has reached: everything before it is done.
  function Reached(start: nat, x: nat): nat {
    if x <= start then start / 4096 else (x - 1) / 4096 + 1
  }

  // One byte on: the same page again, or the next one.
  lemma ReachedStep(start: nat, x: nat)
    requires start <= x
    ensures Reached(start, x + 1) == x / 4096 + 1
    ensures Reached(start, x) == x / 4096 || Reached(start, x) == x / 4096 + 1
    ensures start / 4096 <= x / 4096
  {
  }

  lemma ReachedEnd(start: nat, end: nat, x: nat)
    requires x > end && (x == end + 1 || x == start)
    ensures Reached(start, x) >= AreaLimit(Vma(start, end))
  {
  }

  lemma SeenStep(vm: Vm, space: nat, a: nat, n: nat, last: int)
    requires LastSeen(vm, space, a, n, last) && a <= n
    ensures LastSeen(vm, space, a, n + 1, if Page(space, n) in vm.pages then n else last)
  {
  }

  // Whether a loop that skips what it saw last takes this page: exactly when it is new.
  lemma NewExactly(vm: Vm, space: nat, a: nat, n: nat, last: int, k: nat)
    requires WellFormed(vm) && Injective(vm, space) && LastSeen(vm, space, a, n, last)
    requires a <= k && (k == n || k + 1 == n) && Page(space, k) in vm.pages
    ensures FrameAt(vm, space, k) != FrameAt(vm, space, last) <==> k == n
    ensures FrameAt(vm, space, k) > 0 && (k + 1 == n ==> last == k)
  {
    PageFrame(vm, Page(space, k));
    if last >= 0 {
      assert Page(space, last) in vm.pages;
    }
  }

  lemma IncUnfold(vm: Vm, space: nat, n: nat, limit: nat)
    requires WellFormed(vm) && n < limit
    ensures Page(space, n) !in vm.pages ==> IncPages(vm, space, n, limit) == IncPages(vm, space, n + 1, limit)
    ensures Page(space, n) in vm.pages ==>
      var f := vm.pages[Page(space, n)].frame;
      && vm.base < f < vm.base + |vm.alloc.refs| && WellFormed(IncRef(vm, f))
      && IncRef(vm, f) == vm.(alloc := vm.alloc.Inc(f - vm.base))
      && IncPages(vm, space, n, limit) == IncPages(IncRef(vm, f), space, n + 1, limit)
  {
    hide PoolOk, TablesOk, PagesOk;
    if Page(space, n) in vm.pages {
      PageFrame(vm, Page(space, n));
      RefWellFormed(vm, vm.pages[Page(space, n)].frame);
    }
  }

  // sys/task_manager.c, increment_childpg_ref: byte by byte, one count for each page.
  method IncrementChildpgRef(m: Mmu, vaddrStart: nat, vaddrEnd: nat)
    requires m.Valid() && vaddrEnd < USER_LIMIT && Injective(m.vm, m.space)
    modifies m`vm, m.frames, m.frames.pageList
    ensures m.Valid() && WellFormed(old(m.vm))
    ensures m.vm == IncPages(old(m.vm), m.space, vaddrStart / 4096, AreaLimit(Vma(vaddrStart, vaddrEnd)))
  {
    hide Coupled, WellFormed, Injective, IncPages, LastSeen, Reachable, PageOf, PageIn, Canonical, FrameAt, Reached, IncRef;
    hide PhysicalMemoryManager.Valid, BlockIndex, Frames.Inc, PageWord;
    UserSpace(m.ram, m.vm, m.space);
    ghost var vm0, limit, last := m.vm, AreaLimit(Vma(vaddrStart, vaddrEnd)), -1;
    var marked, vaddr := 0, vaddrStart;
    SeenStart(vm0, m.space, vaddrStart);
    while vaddr <= vaddrEnd
      invariant vaddrStart <= vaddr && (vaddr <= vaddrEnd || vaddr == vaddrEnd + 1 || vaddr == vaddrStart)
      invariant m.Valid() && WellFormed(m.vm) && m.vm == vm0.(alloc := m.vm.alloc)
      invariant IncPages(m.vm, m.space, Reached(vaddrStart, vaddr), limit) == IncPages(vm0, m.space, vaddrStart / 4096, limit)
      invariant LastSeen(vm0, m.space, vaddrStart / 4096, Reached(vaddrStart, vaddr), last)
      invariant marked == 4096 * FrameAt(vm0, m.space, last)
      decreases vaddrEnd + 1 - vaddr
    {
      ghost var n, k := Reached(vaddrStart, vaddr), vaddr / 4096;
      ReachedStep(vaddrStart, vaddr);
      LowAddress(m.ram, m.vm, m.space, vaddr);
      var paddr := m.GetPhysAddr(vaddr);
      EntryAddressIs(vm0, m.space, k, paddr);
      paddr := paddr / 4096 * 4096;
      if Page(m.space, k) in vm0.pages {
        NewExactly(vm0, m.space, vaddrStart / 4096, n, last, k);
      }
      if n == k {
        SeenStep(vm0, m.space, vaddrStart / 4096, n, last);
        IncUnfold(m.vm, m.space, n, limit);
      }
      if paddr != 0 {
        if paddr != marked {
          IncCoupled(m.ram, m.vm, Page(m.space, k));
          m.frames.IncrementReferenceCount(paddr);
          m.vm := IncRef(m.vm, m.vm.pages[Page(m.space, k)].frame);
          marked := paddr;
          last := k;
        }
      }
      vaddr := vaddr + 1;
    }
    ReachedEnd(vaddrStart, vaddrEnd, vaddr);
    IncEnd(m.vm, m.space, Reached(vaddrStart, vaddr), limit);
  }

  lemma SeenStart(vm: Vm, space: nat, start: nat)
    ensures LastSeen(vm, space, start / 4096, Reached(start, start), -1) && Reached(start, start) == start / 4096
    ensures FrameAt(vm, space, -1) == 0
  {
  }

  lemma EntryAddressIs(vm: Vm, space: nat, k: nat, word: nat)
    requires PageIn(space, k) == Page(space, k)
    requires word == if Entry(vm, PageIn(space, k)).None? then 0 else PageWord(Entry(vm, PageIn(space, k)).value)
    ensures word / 4096 == FrameAt(vm, space, k)
    ensures Page(space, k) in vm.pages ==> FrameAt(vm, space, k) == vm.pages[Page(space, k)].frame
    ensures Page(space, k) !in vm.pages ==> FrameAt(vm, space, k) == 0
    ensures word == 0 <==> Page(space, k) !in vm.pages
  {
  }

  lemma IncCoupled(ram: Ram, vm: Vm, p: Page)
    requires Coupled(ram, vm) && p in vm.pages
    ensures var f := vm.pages[p].frame;
            && vm.base < f < vm.base + |vm.alloc.refs| && Coupled(ram, IncRef(vm, f)) && WellFormed(IncRef(vm, f))
            && IncRef(vm, f) == vm.(alloc := vm.alloc.Inc(f - vm.base))
            && BlockIndex(f * 4096, 4096 * vm.base) == f - vm.base
  {
    hide TablesCoupled, DataCoupled, PoolOk, TablesOk, PagesOk, FreeFrame, BlockIndex, Frames.Inc;
    PageFrame(vm, p);
    var f := vm.pages[p].frame;
    RefWellFormed(vm, f);
    AllocCoupled(ram, vm, IncRef(vm, f));
    WholeBlock(vm.base, f);
  }

  lemma WholeBlock(base: nat, f: nat)
    requires f >= base
    ensures BlockIndex(f * 4096, 4096 * base) == f - base
  {
    BlockOfAddress(4096 * base, f - base, 0);
  }

  lemma IncEnd(vm: Vm, space: nat, a: nat, b: nat)
    requires WellFormed(vm) && a >= b
    ensures IncPages(vm, space, a, b) == vm
  {
  }

  // The entries of a space are as they were.
  ghost predicate SameEntries(vm: Vm, v: Vm, space: nat) {
    forall k: nat {:trigger Page(space, k)} ::
      && (Page(space, k) in v.pages <==> Page(space, k) in vm.pages)
      && (Page(space, k) in vm.pages ==> v.pages[Page(space, k)] == vm.pages[Page(space, k)])
  }

  function WordOfLast(vm: Vm, space: nat, last: int): nat {
    if last >= 0 && Page(space, last) in vm.pages then PageWord(vm.pages[Page(space, last)]) else 0
  }

  // The second loop skips the whole entry word it saw last.
  lemma NewWordExactly(vm: Vm, space: nat, a: nat, n: nat, last: int, k: nat)
    requires WellFormed(vm) && Injective(vm, space) && LastSeen(vm, space, a, n, last)
    requires a <= k && (k == n || k + 1 == n)
    ensures Page(space, k) in vm.pages ==>
              && WordOfLast(vm, space, k) != 0 && (WordOfLast(vm, space, k) != WordOfLast(vm, space, last) <==> k == n)
              && WordOfLast(vm, space, k) / 4096 == vm.pages[Page(space, k)].frame
    ensures Page(space, k) !in vm.pages ==> WordOfLast(vm, space, k) == 0
  {
    hide WellFormed, Injective;
    if Page(space, k) in vm.pages {
      NewExactly(vm, space, a, n, last, k);
      PageWordBits(vm.pages[Page(space, k)]);
      if last >= 0 {
        PageWordBits(vm.pages[Page(space, last)]);
      }
    }
  }

  lemma CowUnfold(vm: Vm, parent: nat, child: nat, n: nat, limit: nat)
    requires WellFormed(vm) && InUse(vm, child) && parent != KERNEL && parent != child && limit <= PAGE_LIMIT && n < limit
    ensures Page(parent, n) !in vm.pages ==> CowPages(vm, parent, child, n, limit) == CowPages(vm, parent, child, n + 1, limit)
    ensures Page(parent, n) in vm.pages ==>
      var f := vm.pages[Page(parent, n)].frame;
      && Reachable(vm, child, n) && Mappable(vm, f)
      && var r := MapCow(vm, child, n, f);
         && (r.None? ==> CowPages(vm, parent, child, n, limit) == None)
         && (r.Some? ==>
               && WellFormed(r.value) && InUse(r.value, child)
               && CowPages(vm, parent, child, n, limit) == CowPages(r.value, parent, child, n + 1, limit)
               && SameEntries(vm, r.value, parent)
               && (forall p: nat {:trigger Top(p)} :: Top(p) in vm.tables ==> Top(p) in r.value.tables && r.value.tables[Top(p)] == vm.tables[Top(p)]))
  {
    hide WellFormed, MapCow, Mappable, Reachable, Quiet;
    if Page(parent, n) in vm.pages {
      UserReachable(vm, child, n);
      UserMappable(vm, Page(parent, n));
      MapCowEffect(vm, child, n, vm.pages[Page(parent, n)].frame);
    }
  }

  lemma CowEnd(vm: Vm, parent: nat, child: nat, a: nat, b: nat)
    requires WellFormed(vm) && InUse(vm, child) && parent != KERNEL && b <= PAGE_LIMIT && a >= b
    ensures CowPages(vm, parent, child, a, b) == Some(vm)
  {
  }

  // One page: over to the page table of the child, and back.
  method ShowPage(m: Mmu, start: nat, padd: nat, childCr3: nat, activeCr3: nat, ghost child: nat) returns (ok: bool)
    requires m.Valid() && start < USER_LIMIT
    requires Top(child) in m.vm.tables && childCr3 == 4096 * m.vm.tables[Top(child)] && activeCr3 == 4096 * m.cr3
    requires Reachable(m.vm, child, start / 4096) && Mappable(m.vm, padd / 4096)
    modifies m`ram, m`vm, m`cr3, m`space, m.frames, m.frames.pageList
    ensures WellFormed(old(m.vm))
    ensures ok ==>
      && m.Valid() && m.space == old(m.space) && m.cr3 == old(m.cr3)
      && MapCow(old(m.vm), child, start / 4096, padd / 4096) == Some(m.vm)
    ensures !ok ==> MapCow(old(m.vm), child, start / 4096, padd / 4096) == None
  {
    hide Coupled, WellFormed, Reachable, Mappable, MapCow, PageOf, PageIn, Canonical, Quiet;
    hide PhysicalMemoryManager.Valid, PhysicalMemoryManager.View;
    ghost var parent, vm0 := m.space, m.vm;
    CoupledValid(m.ram, m.vm);
    LowAddress(m.ram, m.vm, child, start);
    MapCowEffect(m.vm, child, start / 4096, padd / 4096);
    ChangePtable(m, childCr3, child);
    ok := m.SetCow(start, padd);
    if ok {
      ChangePtable(m, activeCr3, parent);
    }
  }

  // The second loop of copy_vma: byte by byte, each page of the area is shown to the child,
  // read-only.
  method ShowArea(m: Mmu, vstart: nat, vend: nat, childCr3: nat, activeCr3: nat, ghost child: nat) returns (ok: bool)
    requires m.Valid() && vend < USER_LIMIT && Injective(m.vm, m.space)
    requires child != m.space && Top(child) in m.vm.tables
    requires childCr3 == 4096 * m.vm.tables[Top(child)] && activeCr3 == 4096 * m.cr3
    modifies m`ram, m`vm, m`cr3, m`space, m.frames, m.frames.pageList
    ensures WellFormed(old(m.vm)) && InUse(old(m.vm), child) && old(m.space) != KERNEL
    ensures AreaLimit(Vma(vstart, vend)) <= PAGE_LIMIT
    ensures ok ==>
      && m.Valid() && m.space == old(m.space) && m.cr3 == old(m.cr3)
      && CowPages(old(m.vm), m.space, child, vstart / 4096, AreaLimit(Vma(vstart, vend))) == Some(m.vm)
      && SameEntries(old(m.vm), m.vm, m.space) && Top(child) in m.vm.tables && m.vm.tables[Top(child)] == old(m.vm.tables[Top(child)])
    ensures !ok ==> CowPages(old(m.vm), old(m.space), child, vstart / 4096, AreaLimit(Vma(vstart, vend))) == None
  {
    hide Coupled, WellFormed, Injective, CowPages, LastSeen, Reachable, PageOf, PageIn, Canonical, WordOfLast, Reached;
    hide MapCow, Mappable, PageWord, PhysicalMemoryManager.Valid, PhysicalMemoryManager.View;
    ghost var parent, vm0, limit, last := m.space, m.vm, AreaLimit(Vma(vstart, vend)), -1;
    UserSpace(m.ram, m.vm, parent);
    ChildSpace(m.ram, m.vm, child);
    var start, marked := vstart, 0;
    WordStart(vm0, parent, vstart);
    while start <= vend
      invariant vstart <= start && (start <= vend || start == vend + 1 || start == vstart)
      invariant m.Valid() && m.space == parent && m.cr3 == old(m.cr3) && WellFormed(m.vm) && InUse(m.vm, child)
      invariant SameEntries(vm0, m.vm, parent) && m.vm.tables[Top(child)] == vm0.tables[Top(child)]
      invariant CowPages(m.vm, parent, child, Reached(vstart, start), limit) == CowPages(vm0, parent, child, vstart / 4096, limit)
      invariant LastSeen(vm0, parent, vstart / 4096, Reached(vstart, start), last)
      invariant marked == WordOfLast(vm0, parent, last)
      decreases vend + 1 - start
    {
      ghost var n, k := Reached(vstart, start), start / 4096;
      ReachedStep(vstart, start);
      LowAddress(m.ram, m.vm, parent, start);
      var padd := m.GetPhysAddr(start);
      EntryWordIs(vm0, m.vm, parent, k, padd);
      NewWordExactly(vm0, parent, vstart / 4096, n, last, k);
      if n == k {
        SeenStep(vm0, parent, vstart / 4096, n, last);
        CowUnfold(m.vm, parent, child, n, limit);
      }
      if padd == 0 || padd == marked {
        start := start + 1;
        continue;
      }
      ok := ShowPage(m, start, padd, childCr3, activeCr3, child);
      if !ok {
        return;
      }
      marked := padd;
      last := k;
      start := start + 1;
    }
    ReachedEnd(vstart, vend, start);
    CowEnd(m.vm, parent, child, Reached(vstart, start), limit);
    ok := true;
  }

  lemma ChildSpace(ram: Ram, vm: Vm, child: nat)
    requires Coupled(ram, vm) && Top(child) in vm.tables
    ensures InUse(vm, child) && WellFormed(vm)
  {
    UserSpace(ram, vm, child);
  }

  lemma WordStart(vm: Vm, space: nat, start: nat)
    ensures LastSeen(vm, space, start / 4096, Reached(start, start), -1) && Reached(start, start) == start / 4096
    ensures WordOfLast(vm, space, -1) == 0
  {
  }

  lemma EntryWordIs(vm0: Vm, vm: Vm, space: nat, k: nat, word: nat)
    requires PageIn(space, k) == Page(space, k) && SameEntries(vm0, vm, space)
    requires word == if Entry(vm, PageIn(space, k)).None? then 0 else PageWord(Entry(vm, PageIn(space, k)).value)
    ensures word == WordOfLast(vm0, space, k)
  {
  }

  lemma InjectiveKept(vm: Vm, v: Vm, space: nat)
    requires Injective(vm, space) && SameEntries(vm, v, space)
    ensures Injective(v, space)
  {
    forall i: nat, j: nat {:trigger v.pages[Page(space, i)], v.pages[Page(space, j)]}
      | Page(space, i) in v.pages && Page(space, j) in v.pages && v.pages[Page(space, i)].frame == v.pages[Page(space, j)].frame
      ensures i == j
    {
      assert vm.pages[Page(space, i)].frame == vm.pages[Page(space, j)].frame;
    }
  }

  lemma IncShape(vm: Vm, space: nat, a: nat, b: nat)
    requires WellFormed(vm)
    ensures var v := IncPages(vm, space, a, b); WellFormed(v) && v.tables == vm.tables && SameEntries(vm, v, space)
  {
  }

  lemma CopyUnfold(vm: Vm, parent: nat, child: nat, areas: seq<Vma>, k: nat)
    requires WellFormed(vm) && InUse(vm, child) && parent != KERNEL && Bounded(areas) && k < |areas|
    ensures Bounded(areas[k..]) && Bounded(areas[k + 1..])
    ensures var a, b := AreaFirst(areas[k]), AreaLimit(areas[k]);
            && WellFormed(IncPages(vm, parent, a, b)) && InUse(IncPages(vm, parent, a, b), child) && b <= PAGE_LIMIT
            && var r := CowPages(IncPages(vm, parent, a, b), parent, child, a, b);
               && (r.None? ==> CopyAreas(vm, parent, child, areas[k..]) == None)
               && (r.Some? ==>
                     && WellFormed(r.value) && InUse(r.value, child)
                     && CopyAreas(vm, parent, child, areas[k..]) == CopyAreas(r.value, parent, child, areas[k + 1..]))
  {
    hide WellFormed, CowPages, IncPages;
    assert areas[k..][1..] == areas[k + 1..];
  }

  lemma CopyDone(vm: Vm, parent: nat, child: nat, areas: seq<Vma>)
    requires WellFormed(vm) && InUse(vm, child) && parent != KERNEL
    ensures Bounded(areas[|areas|..]) && CopyAreas(vm, parent, child, areas[|areas|..]) == Some(vm)
  {
  }

  // One area of copy_vma.
  method CopyArea(m: Mmu, vstart: nat, vend: nat, childCr3: nat, activeCr3: nat, ghost child: nat) returns (ok: bool)
    requires m.Valid() && vend < USER_LIMIT && Injective(m.vm, m.space)
    requires child != m.space && Top(child) in m.vm.tables
    requires childCr3 == 4096 * m.vm.tables[Top(child)] && activeCr3 == 4096 * m.cr3
    modifies m`ram, m`vm, m`cr3, m`space, m.frames, m.frames.pageList
    ensures WellFormed(old(m.vm)) && InUse(old(m.vm), child) && old(m.space) != KERNEL
    ensures AreaLimit(Vma(vstart, vend)) <= PAGE_LIMIT
    ensures var v := IncPages(old(m.vm), old(m.space), vstart / 4096, AreaLimit(Vma(vstart, vend)));
      && WellFormed(v) && InUse(v, child)
      && var r := CowPages(v, old(m.space), child, vstart / 4096, AreaLimit(Vma(vstart, vend)));
         && (!ok ==> r == None)
         && (ok ==>
               && m.Valid() && m.space == old(m.space) && m.cr3 == old(m.cr3) && r == Some(m.vm)
               && Injective(m.vm, m.space) && Top(child) in m.vm.tables && m.vm.tables[Top(child)] == old(m.vm.tables[Top(child)]))
  {
    hide Coupled, WellFormed, Injective, CowPages, IncPages, SameEntries;
    hide PhysicalMemoryManager.Valid, PhysicalMemoryManager.View;
    ghost var vm0 := m.vm;
    UserSpace(m.ram, m.vm, m.space);
    ChildSpace(m.ram, m.vm, child);
    IncShape(m.vm, m.space, vstart / 4096, AreaLimit(Vma(vstart, vend)));
    IncrementChildpgRef(m, vstart, vend);
    InjectiveKept(vm0, m.vm, m.space);
    ghost var vm1 := m.vm;
    ok := ShowArea(m, vstart, vend, childCr3, activeCr3, child);
    if ok {
      InjectiveKept(vm1, m.vm, m.space);
    }
  }

  // sys/task_manager.c, copy_vma: the areas of the parent, one after the other, go into the
  // list of the child, and their pages into its page tables.  False when memory is
  // exhausted.
  method CopyVma(m: Mmu, heap: VmaHeap, task: nat, childTask: nat, childCr3: nat, activeCr3: nat, ghost child: nat) returns (ok: bool)
    requires m.Valid() && Injective(m.vm, m.space)
    requires heap.Valid() && task < heap.heads.Length == |heap.shape.lists| && childTask < heap.heads.Length && childTask != task
    requires Bounded(heap.Areas(task))
    requires child != m.space && Top(child) in m.vm.tables
    requires childCr3 == 4096 * m.vm.tables[Top(child)] && activeCr3 == 4096 * m.cr3
    modifies m`ram, m`vm, m`cr3, m`space, m.frames, m.frames.pageList, heap`nodes, heap`recycleList, heap`shape, heap.heads
    ensures WellFormed(old(m.vm)) && InUse(old(m.vm), child) && old(m.space) != KERNEL
    ensures ok ==>
      && m.Valid() && m.space == old(m.space) && m.cr3 == old(m.cr3)
      && CopyAreas(old(m.vm), m.space, child, old(heap.Areas(task))) == Some(m.vm)
    ensures !ok ==> CopyAreas(old(m.vm), old(m.space), child, old(heap.Areas(task))) == None
    ensures heap.Valid() && |heap.shape.lists| == old(|heap.shape.lists|)
    ensures ok ==> forall i :: 0 <= i < |heap.shape.lists| ==>
              heap.Areas(i) == if i == childTask then old(heap.Areas(i)) + old(heap.Areas(task)) else old(heap.Areas(i))
  {
    hide Coupled, WellFormed, Injective, CowPages, IncPages, SameEntries, CopyAreas, Sound, Linked, AllAt, Bounded, AreasOf;
    hide PhysicalMemoryManager.Valid, PhysicalMemoryManager.View;
    ghost var parent, vm0, list, areas := m.space, m.vm, heap.shape.lists[task], heap.Areas(task);
    ghost var before := heap.shape.lists;
    UserSpace(m.ram, m.vm, parent);
    ChildSpace(m.ram, m.vm, child);
    var lastVma := heap.heads[task];
    HeadIs(heap.View(), heap.shape, task);
    ghost var k: nat := 0;
    assert areas[0..] == areas;
    while lastVma != NULL
      invariant k <= |list| == |areas| && lastVma == At(list, k)
      invariant m.Valid() && m.space == parent && m.cr3 == old(m.cr3) && WellFormed(m.vm) && InUse(m.vm, child)
      invariant Injective(m.vm, parent) && m.vm.tables[Top(child)] == vm0.tables[Top(child)] && Bounded(areas[k..])
      invariant CopyAreas(m.vm, parent, child, areas[k..]) == CopyAreas(vm0, parent, child, areas)
      invariant heap.Valid() && |heap.shape.lists| == |before| && heap.shape.lists[task] == list
      invariant forall i :: 0 <= i < |before| ==>
                  heap.Areas(i) == if i == childTask then old(heap.Areas(i)) + areas[..k] else old(heap.Areas(i))
      decreases |list| - k
    {
      NodeOf(heap.View(), heap.shape, task, k);
      CopyUnfold(m.vm, parent, child, areas, k);
      var node := heap.nodes[lastVma];
      heap.AddArea(childTask, node.vstart, node.vend);
      AreaBound(areas, k);
      ok := CopyArea(m, node.vstart, node.vend, childCr3, activeCr3, child);
      if !ok {
        return;
      }
      NodeOf(heap.View(), heap.shape, task, k);
      lastVma := heap.nodes[lastVma].nextvma;
      assert areas[..k] + [areas[k]] == areas[..k + 1];
      k := k + 1;
    }
    EndOf(heap.View(), heap.shape, task, k);
    CopyDone(m.vm, parent, child, areas);
    assert areas[..k] == areas;
    ok := true;
  }

  lemma AreaBound(areas: seq<Vma>, k: nat)
    requires Bounded(areas) && k < |areas|
    ensures areas[k].end < USER_LIMIT
  {
  }

  // ------------------------------------------------------- areas that come and go

  // sys/syscall.c, k_mmap: the heap grows by whole pages, the area only by what was asked.
  method KMmap(heap: VmaHeap, task: nat, heapTop: nat, length: nat) returns (start: nat, newTop: nat)
    requires heap.Valid() && task < heap.heads.Length == |heap.shape.lists|
    requires heapTop > 0
    modifies heap`nodes, heap`recycleList, heap`shape, heap.heads
    ensures heap.Valid() && |heap.shape.lists| == old(|heap.shape.lists|) && start == heapTop
    ensures newTop % 4096 == 0 && heapTop + length <= newTop < heapTop + length + 4096
    ensures heap.Areas(task) == old(heap.Areas(task)) + [Vma(heapTop, heapTop + length - 1)]
    ensures forall slot: nat ::
              var t := Task(slot, old(heap.Areas(task)), heapTop, true);
              AfterMmap(t, length) == Task(slot, heap.Areas(task), newTop, true)
    ensures forall i :: 0 <= i < |heap.shape.lists| && i != task ==> heap.Areas(i) == old(heap.Areas(i))
  {
    var endAddr := heapTop + length - 1;
    newTop := (endAddr / 4096 + 1) * 4096;
    heap.AddArea(task, heapTop, endAddr);
    start := heapTop;
  }

  // sys/syscall.c, k_munmap, through remove_from_vma_list.  False: a segmentation fault.
  method KMunmap(m: Mmu, heap: VmaHeap, task: nat, addr: nat, length: nat) returns (ok: bool)
    requires m.Valid() && Counted(m.vm) && heap.Valid() && task < heap.heads.Length == |heap.shape.lists|
    requires AreasOk(heap.Areas(task))
    modifies m`ram, m`vm, m.frames, m.frames.pageList, heap`nodes, heap`recycleList, heap`shape, heap.heads
    ensures m.Valid() && Counted(m.vm) && m.space != KERNEL && WellFormed(old(m.vm))
    ensures heap.Valid() && |heap.shape.lists| == old(|heap.shape.lists|)
    ensures var a := old(heap.Areas(task)); var k := FirstCover(a, addr, addr + length);
            && (ok <==> k < |a|)
            && (ok ==> m.vm == UnmapPages(old(m.vm), m.space, AreaFirst(a[k]), UnmapLimit(a[k])) && heap.Areas(task) == Without(a, k))
            && (!ok ==> m.vm == old(m.vm) && heap.Areas(task) == a)
    ensures forall i :: 0 <= i < |heap.shape.lists| && i != task ==> heap.Areas(i) == old(heap.Areas(i))
  {
    hide Coupled, WellFormed, Counted, UnmapPages, Without, Sound, AreasOf;
    hide PhysicalMemoryManager.Valid, PhysicalMemoryManager.View;
    UserSpace(m.ram, m.vm, m.space);
    ok := RemoveArea(m, heap, task, addr, addr + length);
  }

  // The source unlinks and unmaps in one function.
  method RemoveArea(m: Mmu, heap: VmaHeap, task: nat, startAddr: nat, endAddr: nat) returns (ok: bool)
    requires m.Valid() && Counted(m.vm) && heap.Valid() && task < heap.heads.Length == |heap.shape.lists|
    requires AreasOk(heap.Areas(task))
    modifies m`ram, m`vm, m.frames, m.frames.pageList, heap`nodes, heap`recycleList, heap`shape, heap.heads
    ensures m.Valid() && Counted(m.vm) && m.space != KERNEL && WellFormed(old(m.vm)) && WellFormed(m.vm)
    ensures heap.Valid() && |heap.shape.lists| == old(|heap.shape.lists|)
    ensures var a := old(heap.Areas(task)); var k := FirstCover(a, startAddr, endAddr);
            && (ok <==> k < |a|)
            && (ok ==> m.vm == UnmapPages(old(m.vm), m.space, AreaFirst(a[k]), UnmapLimit(a[k])) && heap.Areas(task) == Without(a, k))
            && (!ok ==> m.vm == old(m.vm) && heap.Areas(task) == a)
    ensures ok ==> heap.shape == Recycled(old(heap.shape), task, FirstCover(old(heap.Areas(task)), startAddr, endAddr))
    ensures forall i :: 0 <= i < |heap.shape.lists| && i != task ==> heap.Areas(i) == old(heap.Areas(i))
    ensures old(NoneLoose(heap.shape)) ==> NoneLoose(heap.shape)
  {
    hide Coupled, WellFormed, Counted, UnmapPages, Without, Sound, AreasOf, Recycled;
    hide PhysicalMemoryManager.Valid, PhysicalMemoryManager.View;
    UserSpace(m.ram, m.vm, m.space);
    var area := heap.RemoveFromVmaList(task, startAddr, endAddr);
    if area.None? {
      return false;
    }
    m.UnmapPhyaddrRange(area.value.start, area.value.end);
    CoupledValid(m.ram, m.vm);
    ok := true;
  }

  // The release at the head of syscall_exit and kill_proc: every area is removed, by its
  // own bounds.
  method ReleaseAll(m: Mmu, heap: VmaHeap, task: nat)
    requires m.Valid() && Counted(m.vm) && heap.Valid() && task < heap.heads.Length == |heap.shape.lists|
    requires AreasOk(heap.Areas(task))
    modifies m`ram, m`vm, m.frames, m.frames.pageList, heap`nodes, heap`recycleList, heap`shape, heap.heads
    ensures m.Valid() && Counted(m.vm) && m.space != KERNEL && WellFormed(old(m.vm))
    ensures m.vm == ReleaseAreas(old(m.vm), m.space, old(heap.Areas(task)))
    ensures heap.Valid() && |heap.shape.lists| == old(|heap.shape.lists|)
    ensures forall i :: 0 <= i < |heap.shape.lists| ==> heap.Areas(i) == if i == task then [] else old(heap.Areas(i))
    ensures heap.heads[task] == NULL
  {
    hide Coupled, WellFormed, Counted, UnmapPages, Without, Sound, AreasOf, Recycled, ReleaseAreas;
    hide PhysicalMemoryManager.Valid, PhysicalMemoryManager.View;
    UserSpace(m.ram, m.vm, m.space);
    ghost var vm0, areas := m.vm, heap.Areas(task);
    ghost var k: nat := 0;
    assert areas[0..] == areas;
    var lastVma := heap.heads[task];
    HeadOfAreas(heap.View(), heap.shape, task);
    while lastVma != NULL
      invariant k <= |areas| && heap.Valid() && |heap.shape.lists| == old(|heap.shape.lists|) == heap.heads.Length
      invariant heap.Areas(task) == areas[k..] && lastVma == heap.heads[task] && (lastVma == NULL <==> k == |areas|)
      invariant forall i :: 0 <= i < |heap.shape.lists| && i != task ==> heap.Areas(i) == old(heap.Areas(i))
      invariant m.Valid() && Counted(m.vm) && WellFormed(m.vm) && AreasOk(areas[k..])
      invariant ReleaseAreas(m.vm, m.space, areas[k..]) == ReleaseAreas(vm0, m.space, areas)
      decreases |areas| - k
    {
      HeadOfAreas(heap.View(), heap.shape, task);
      ReleaseUnfold(m.vm, m.space, areas, k);
      ghost var h, s := heap.View(), heap.shape;
      var node := heap.nodes[lastVma];
      var nextVma := node.nextvma;
      FirstCoverAt(areas[k..], node.vstart, node.vend, 0);
      var ok := RemoveArea(m, heap, task, node.vstart, node.vend);
      WithoutHead(areas, k);
      NextIsHead(h, s, heap.View(), heap.shape, task);
      HeadOfAreas(heap.View(), heap.shape, task);
      lastVma := nextVma;
      k := k + 1;
    }
    ReleaseDone(m.vm, m.space, areas);
  }

  // The head of a list and its first area.
  lemma HeadOfAreas(h: Heap, s: Shape, task: nat)
    requires Sound(h, s) && task < |s.lists|
    ensures |s.lists| == |h.heads|
    ensures h.heads[task] == NULL <==> AreasOf(h.nodes, s.lists[task]) == []
    ensures h.heads[task] != NULL ==>
      && 0 <= h.heads[task] < |h.nodes|
      && AreasOf(h.nodes, s.lists[task])[0] == AreaOf(h.nodes[h.heads[task]])
  {
    HeadIs(h, s, task);
  }

  // The successor read before the removal is the head after it.
  lemma NextIsHead(h: Heap, s: Shape, g: Heap, r: Shape, task: nat)
    requires Sound(h, s) && Sound(g, r) && task < |s.lists| == |h.heads| && h.heads[task] != NULL
    requires s.lists[task] != [] && r == Recycled(s, task, 0)
    ensures 0 <= h.heads[task] < |h.nodes| && |r.lists| == |g.heads| && task < |g.heads| && g.heads[task] == h.nodes[h.heads[task]].nextvma
  {
    NodeOf(h, s, task, 0);
    HeadIs(h, s, task);
    SoundSizes(h, s);
    ListOkOf(g, r, task);
    assert Dropped(s.lists[task], 0) == s.lists[task][1..];
  }

  lemma WithoutHead(areas: seq<Vma>, k: nat)
    requires k < |areas|
    ensures Without(areas[k..], 0) == areas[k + 1..]
  {
  }

  lemma ReleaseUnfold(vm: Vm, space: nat, areas: seq<Vma>, k: nat)
    requires WellFormed(vm) && Counted(vm) && space != KERNEL && k < |areas| && AreasOk(areas[k..])
    ensures AreasOk(areas[k + 1..])
    ensures var v := UnmapPages(vm, space, AreaFirst(areas[k]), UnmapLimit(areas[k]));
            WellFormed(v) && Counted(v) && ReleaseAreas(vm, space, areas[k..]) == ReleaseAreas(v, space, areas[k + 1..])
  {
    hide WellFormed, Counted, UnmapPages;
    assert areas[k..][1..] == areas[k + 1..];
    assert forall i {:trigger areas[k + 1..][i]} :: 0 <= i < |areas[k + 1..]| ==> areas[k + 1..][i] == areas[k..][i + 1];
  }

  lemma ReleaseDone(vm: Vm, space: nat, areas: seq<Vma>)
    requires WellFormed(vm) && Counted(vm) && space != KERNEL
    ensures ReleaseAreas(vm, space, areas[|areas|..]) == vm
  {
  }

  // --------------------------------------------------------- a new address space

  // The tables of a process that is gone are plain memory from now on.
  function Forgotten(vm: Vm, ram: Ram, dead: Option<nat>): Vm {
    if dead.None? then vm else DropSpace(vm, dead.value).(data := ram)
  }

  lemma ForgottenCoupled(ram: Ram, vm: Vm, dead: Option<nat>)
    requires Coupled(ram, vm) && (dead.Some? ==> dead.value != KERNEL)
    ensures Coupled(ram, Forgotten(vm, ram, dead))
    ensures forall t: Table {:trigger t in Forgotten(vm, ram, dead).tables} ::
              t in vm.tables && !(dead.Some? && t.space == dead.value) ==>
                t in Forgotten(vm, ram, dead).tables && Forgotten(vm, ram, dead).tables[t] == vm.tables[t]
  {
    if dead.Some? {
      var v := Forgotten(vm, ram, dead);
      DropWellFormed(vm, dead.value);
      SameLengthData(DropSpace(vm, dead.value), ram);
      hide WellFormed;
      forall t, i {:trigger Expected(v, t, i)} | t in v.tables && 1 <= t.level <= 4 && 0 <= i < 512 && v.tables[t] < |ram|
        ensures WordAt(ram[v.tables[t]], i) == Expected(v, t, i)
      {
        assert WordAt(ram[vm.tables[t]], i) == Expected(vm, t, i);
      }
    }
  }

  // Below entry 511 all spaces are the same.
  lemma KernelPath(vm: Vm, space: nat, n: nat)
    requires WellFormed(vm) && n / 512 / 512 / 512 == KERNEL_SLOT
    ensures Reachable(vm, space, n) && Reachable(vm, KERNEL, n) && PageIn(space, n) == Page(KERNEL, n) == PageIn(KERNEL, n)
    ensures MapPage(vm, space, n) == MapPage(vm, KERNEL, n)
  {
    hide WellFormed;
    assert Pdpt(space, n) == Pdpt(KERNEL, n) && Pd(space, n) == Pd(KERNEL, n) && Pt(space, n) == Pt(KERNEL, n);
    assert EnsurePath(vm, space, n) == EnsurePath(vm, KERNEL, n) by { hide EnsureTable; }
    hide EnsurePath;
  }

  // Word `j` of the page through which the new table is filled in.
  lemma AliasShows(ram: Ram, vm: Vm, space: nat, va: nat, f: nat, fr: Frame, j: nat)
    requires Coupled(ram, vm) && Top(space) in vm.tables && va % 4096 == 0 && j < 512
    requires Canonical(va) && HwPml4(va) != SELF_SLOT && PageIn(space, PageOf(va)) in vm.pages
    requires f == vm.pages[PageIn(space, PageOf(va))].frame && !IsTable(vm, f) && f < |ram| && f < |vm.data|
    ensures Coupled(ram[f := fr], SetData(vm, f, fr)) && vm.tables[Top(space)] < |ram|
    ensures OffsetOf(va + 8 * j) == 8 * j
    ensures var hit := Translate(ram[f := fr], vm.tables[Top(space)], va + 8 * j); hit.Some? && hit.value.frame == f
  {
    hide Coupled, Canonical, PageOf, HwPml4, OffsetOf, Translate, IsTable;
    SetDataCoupled(ram, vm, f, fr);
    SamePage(va, 8 * j);
    TranslateIs(ram[f := fr], SetData(vm, f, fr), space, va + 8 * j);
  }

  // The words of a top-level table of a new space: nothing below, itself, the kernel.
  ghost predicate TopWords(vm: Vm, f: nat, fr: Frame) {
    && KERNEL_TOP in vm.tables
    && (forall i :: 0 <= i < 510 ==> WordAt(fr, i) == 0)
    && WordAt(fr, SELF_SLOT) == TableWord(f) && WordAt(fr, KERNEL_SLOT) == TableWord(vm.tables[KERNEL_TOP])
  }

  lemma NothingUnder(vm: Vm, pid: nat, i: nat)
    requires WellFormed(vm) && Top(pid) !in vm.tables && i < 510
    ensures Child(Top(pid), i) !in vm.tables
  {
    var c := Child(Top(pid), i);
    assert Parent(c) == Top(pid);
    assert c in vm.tables ==> Placed(vm, c);
  }

  lemma TopExpected(vm: Vm, f: nat, pid: nat, fr: Frame, i: nat)
    requires WellFormed(vm) && Top(pid) !in vm.tables && pid != KERNEL && TopWords(vm, f, fr) && i < 512
    ensures WordAt(fr, i) == Expected(Adopt(vm, f, pid), Top(pid), i)
  {
    hide WellFormed;
    if i < 510 {
      NothingUnder(vm, pid, i);
    }
  }

  lemma AdoptCoupled(ram: Ram, vm: Vm, f: nat, pid: nat)
    requires Coupled(ram, vm) && Mappable(vm, f) && KernelOnly(vm, f) && pid != KERNEL && Top(pid) !in vm.tables
    requires f < |ram| && TopWords(vm, f, ram[f])
    ensures Coupled(ram, Adopt(vm, f, pid))
  {
    AdoptWellFormed(vm, f, pid);
    var v := Adopt(vm, f, pid);
    AdoptData(ram, vm, f, pid);
    hide WellFormed, DataCoupled, KernelOnly, TopWords;
    forall t, i {:trigger Expected(v, t, i)} | t in v.tables && 1 <= t.level <= 4 && 0 <= i < 512 && v.tables[t] < |ram|
      ensures WordAt(ram[v.tables[t]], i) == Expected(v, t, i)
    {
      if t == Top(pid) {
        TopExpected(vm, f, pid, ram[f], i);
      } else {
        assert WordAt(ram[vm.tables[t]], i) == Expected(vm, t, i);
        AdoptExpected(vm, f, pid, t, i);
      }
    }
  }

  lemma AdoptExpected(vm: Vm, f: nat, pid: nat, t: Table, i: nat)
    requires t in vm.tables && 1 <= t.level <= 4 && i < 512 && t != Top(pid)
    ensures Expected(Adopt(vm, f, pid), t, i) == Expected(vm, t, i)
  {
  }

  lemma AdoptData(ram: Ram, vm: Vm, f: nat, pid: nat)
    requires DataCoupled(ram, vm) && Top(pid) !in vm.tables
    ensures DataCoupled(ram, Adopt(vm, f, pid))
  {
    var v := Adopt(vm, f, pid);
    forall g {:trigger ram[g]} | 0 <= g < |ram| && !IsTable(v, g) ensures ram[g] == vm.data[g] {
      forall t | t in vm.tables ensures vm.tables[t] != g {
        assert t in v.tables && v.tables[t] == vm.tables[t];
      }
    }
  }

  // The kernel page at `va` shows frame `f`, which is not a table.
  ghost predicate ShowsFrame(vm: Vm, space: nat, va: nat, f: nat) {
    && va % 4096 == 0 && Canonical(va) && HwPml4(va) != SELF_SLOT && f < |vm.data|
    && PageIn(space, PageOf(va)) in vm.pages && vm.pages[PageIn(space, PageOf(va))].frame == f && !IsTable(vm, f)
  }

  // One entry of the new top-level table, through the alias page.
  method WriteEntry(m: Mmu, vPml4: nat, j: nat, w: nat, ghost f: nat)
    requires m.Valid() && ShowsFrame(m.vm, m.space, vPml4, f) && j < 512 && w < U64
    modifies m`ram, m`vm
    ensures m.Valid() && ShowsFrame(m.vm, m.space, vPml4, f) && f < |m.ram| == |old(m.ram)|
    ensures m.vm == SetData(old(m.vm), f, m.ram[f])
    ensures forall k :: 0 <= k < 512 ==> WordAt(m.ram[f], k) == if k == j then w else WordAt(old(m.ram)[f], k)
  {
    hide Coupled, Canonical, PageOf, HwPml4, OffsetOf, Translate, WordAt, SetWord;
    hide PhysicalMemoryManager.Valid, PhysicalMemoryManager.View;
    ghost var ram0, fr := m.ram, m.vm.data[f];
    CoupledValid(m.ram, m.vm);
    DataAt(m.ram, m.vm, f);
    ShownNotTable(m.vm, SetData(m.vm, f, SetWord(fr, j, w)), m.space, vPml4, f);
    hide IsTable, ShowsFrame;
    AliasOf(m.ram, m.vm, m.space, vPml4, f, fr, j);
    AliasOf(m.ram, m.vm, m.space, vPml4, f, SetWord(fr, j, w), j);
    m.WriteWord(vPml4 + 8 * j, w);
    m.vm := SetData(m.vm, f, SetWord(fr, j, w));
    forall k | 0 <= k < 512 ensures WordAt(m.ram[f], k) == if k == j then w else WordAt(ram0[f], k) {
      WordAtSetWord(fr, j, w, k);
    }
  }

  lemma ShownNotTable(vm: Vm, v: Vm, space: nat, va: nat, f: nat)
    requires ShowsFrame(vm, space, va, f) && v == vm.(data := v.data) && |v.data| == |vm.data|
    ensures ShowsFrame(v, space, va, f)
  {
    assert IsTable(v, f) ==> IsTable(vm, f);
  }

  lemma AliasOf(ram: Ram, vm: Vm, space: nat, va: nat, f: nat, fr: Frame, j: nat)
    requires Coupled(ram, vm) && Top(space) in vm.tables && ShowsFrame(vm, space, va, f) && j < 512 && f < |ram|
    ensures Coupled(ram[f := fr], SetData(vm, f, fr)) && vm.tables[Top(space)] < |ram|
    ensures OffsetOf(va + 8 * j) % 8 == 0 && OffsetOf(va + 8 * j) / 8 == j
    ensures var hit := Translate(ram[f := fr], vm.tables[Top(space)], va + 8 * j); hit.Some? && hit.value.frame == f
  {
    hide Coupled, Canonical, PageOf, HwPml4, OffsetOf, Translate, IsTable, SetData;
    AliasShows(ram, vm, space, va, f, fr, j);
    WordOffset(j);
  }

  lemma WordOffset(j: nat)
    ensures 8 * j % 8 == 0 && 8 * j / 8 == j
  {
  }

  // The first 510 entries of the new top-level table are cleared.
  method ClearEntries(m: Mmu, vPml4: nat, ghost f: nat)
    requires m.Valid() && ShowsFrame(m.vm, m.space, vPml4, f)
    modifies m`ram, m`vm
    ensures m.Valid() && ShowsFrame(m.vm, m.space, vPml4, f) && f < |m.ram|
    ensures f < |old(m.vm).data| && m.vm == SetData(old(m.vm), f, m.ram[f])
    ensures forall k :: 0 <= k < 510 ==> WordAt(m.ram[f], k) == 0
  {
    hide Coupled, ShowsFrame, WordAt, PhysicalMemoryManager.Valid, PhysicalMemoryManager.View;
    ghost var vm0 := m.vm;
    ShownData(m.ram, m.vm, m.space, vPml4, f);
    for i := 0 to 510
      invariant m.Valid() && ShowsFrame(m.vm, m.space, vPml4, f) && f < |m.ram| && f < |vm0.data|
      invariant m.vm == SetData(vm0, f, m.ram[f])
      invariant forall k :: 0 <= k < i ==> WordAt(m.ram[f], k) == 0
    {
      WriteEntry(m, vPml4, i, 0, f);
    }
  }

  lemma ShownData(ram: Ram, vm: Vm, space: nat, va: nat, f: nat)
    requires Coupled(ram, vm) && ShowsFrame(vm, space, va, f)
    ensures f < |ram| == |vm.data| && SetData(vm, f, ram[f]) == vm
  {
  }

  // Entry 511 of the table in use: the kernel's.
  method KernelEntry(m: Mmu) returns (w: nat)
    requires m.Valid()
    ensures KERNEL_TOP in m.vm.tables && w == TableWord(m.vm.tables[KERNEL_TOP]) && w < U64
  {
    hide Coupled, Translate, OffsetOf, TableAddress, PathShown, WordAt;
    hide PhysicalMemoryManager.Valid, PhysicalMemoryManager.View;
    ghost var n := KERNEL_SLOT * 0x800_0000;
    assert n / 512 / 512 / 512 == KERNEL_SLOT;
    StartOfPath(m.vm, m.space, n);
    m.Reach({}, n, 4, KERNEL_SLOT);
    KernelWord(m.ram, m.vm, m.space);
    AddressesOnPath(n);
    var p1 := Chain(BASE, SELF_SLOT, SELF_SLOT, SELF_SLOT, SELF_SLOT);
    w := m.ReadWord(p1 + 8 * KERNEL_SLOT);
  }

  lemma KernelWord(ram: Ram, vm: Vm, space: nat)
    requires Coupled(ram, vm) && Top(space) in vm.tables
    ensures KERNEL_TOP in vm.tables && TableWord(vm.tables[KERNEL_TOP]) < U64 && vm.tables[Top(space)] < |ram|
    ensures WordAt(ram[vm.tables[Top(space)]], KERNEL_SLOT) == TableWord(vm.tables[KERNEL_TOP])
  {
    CoupledInRam(ram, vm, Top(space));
    hide DataCoupled, PoolOk, PagesOk;
    assert Placed(vm, Top(space));
    assert WordAt(ram[vm.tables[Top(space)]], KERNEL_SLOT) == Expected(vm, Top(space), KERNEL_SLOT);
    assert Child(Top(space), KERNEL_SLOT) == KERNEL_TOP;
    FrameBound(vm, KERNEL_TOP);
    SmallWord(vm.tables[KERNEL_TOP]);
  }

  lemma FrameBound(vm: Vm, t: Table)
    requires WellFormed(vm) && t in vm.tables
    ensures vm.tables[t] < 0x100_0000_0000
  {
  }

  lemma MappedReady(ram: Ram, vm: Vm, space: nat, va: nat, pid: nat)
    requires Coupled(ram, vm) && Top(space) in vm.tables && va % 4096 == 0 && Canonical(va)
    requires Adoptable(vm, PageOf(va), pid)
    ensures Reachable(vm, space, PageOf(va)) && Reachable(vm, KERNEL, PageOf(va)) && HwPml4(va) != SELF_SLOT && WellFormed(vm)
    ensures PageIn(space, PageOf(va)) == Page(KERNEL, PageOf(va))
    ensures MapPage(vm, space, PageOf(va)) == MapPage(vm, KERNEL, PageOf(va))
    ensures PageIn(space, PageOf(va)) in vm.pages ==> Writable(vm, space, va)
  {
    hide TablesCoupled, DataCoupled, PoolOk, TablesOk, PagesOk, Canonical, PageOf, HwPml4, MapPage;
    KernelPath(vm, space, PageOf(va));
    PageFields(va);
    if Page(KERNEL, PageOf(va)) in vm.pages {
      NotTable(vm, vm.pages[Page(KERNEL, PageOf(va))].frame);
    }
  }

  // AddSpace, once the page that shows the new table is mapped.
  lemma AddSpaceIs(ram: Ram, vm: Vm, v: Vm, space: nat, va: nat, pid: nat)
    requires WellFormed(vm) && Adoptable(vm, PageOf(va), pid)
    requires Reachable(vm, KERNEL, PageOf(va)) && MapPage(vm, KERNEL, PageOf(va)) == Some(v)
    requires Coupled(ram, v) && va % 4096 == 0 && Canonical(va) && HwPml4(va) != SELF_SLOT && PageIn(space, PageOf(va)) == Page(KERNEL, PageOf(va))
    ensures Page(KERNEL, PageOf(va)) in v.pages
    ensures var f := v.pages[Page(KERNEL, PageOf(va))].frame;
            && |v.data| == |vm.data| && f < |v.data|
            && Mappable(v, f) && KernelOnly(v, f) && Top(pid) !in v.tables && pid != KERNEL
            && ShowsFrame(v, space, va, f)
            && AddSpace(vm, PageOf(va), pid) == Some(Adopt(v, f, pid).(data := vm.data))
            && (forall g :: 0 <= g < |vm.data| && g != f ==> g < |v.data| && v.data[g] == vm.data[g])
  {
    AdoptablePid(vm, PageOf(va), pid);
    hide TablesCoupled, DataCoupled, PoolOk, TablesOk, PagesOk, Canonical, PageOf, HwPml4, MapPage, Adoptable, Mappable, KernelOnly, Quiet, Reachable;
    MappedAlias(vm, PageOf(va), pid);
    var f := v.pages[Page(KERNEL, PageOf(va))].frame;
    AddSpaceUnfold(vm, PageOf(va), pid);
    NotTable(v, f);
    PageFrameInRam(ram, v, Page(KERNEL, PageOf(va)));
  }

  lemma AdoptablePid(vm: Vm, alias: nat, pid: nat)
    requires Adoptable(vm, alias, pid)
    ensures pid != KERNEL
  {
  }

  lemma AddSpaceUnfold(vm: Vm, alias: nat, pid: nat)
    requires WellFormed(vm) && Adoptable(vm, alias, pid)
    ensures Reachable(vm, KERNEL, alias)
    ensures MapPage(vm, KERNEL, alias).None? ==> AddSpace(vm, alias, pid) == None
    ensures MapPage(vm, KERNEL, alias).Some? ==>
      var v := MapPage(vm, KERNEL, alias).value;
      Page(KERNEL, alias) in v.pages
      && AddSpace(vm, alias, pid) == Some(Adopt(v, v.pages[Page(KERNEL, alias)].frame, pid).(data := vm.data))
  {
    hide WellFormed, Adoptable, MapPage, Mappable, KernelOnly, Quiet;
    MappedAlias(vm, alias, pid);
  }

  // The bytes that processes see are the same.
  ghost predicate UserDataSame(vm: Vm, v: Vm) {
    && |v.data| == |vm.data|
    && forall p: Page {:trigger v.pages[p]} :: p in v.pages && p.space != KERNEL && v.pages[p].frame < |vm.data| ==>
         v.data[v.pages[p].frame] == vm.data[v.pages[p].frame]
  }

  // At most the bytes of one frame differ.
  ghost predicate FilledAt(v: Vm, w: Vm, f: nat) {
    |w.data| == |v.data| && forall g {:trigger w.data[g]} :: 0 <= g < |v.data| && g != f ==> w.data[g] == v.data[g]
  }

  // sys/task_manager.c, mappageTable: a frame for the top-level table is mapped into the
  // kernel, cleared, and given the kernel's entry and the entry for itself.
  method MapPageTable(m: Mmu, vPml4: nat, ghost dead: Option<nat>, ghost pid: nat) returns (pPml4: Option<nat>)
    requires m.Valid() && vPml4 % 4096 == 0 && Canonical(vPml4)
    requires dead.Some? ==> dead.value != KERNEL && dead.value != m.space
    requires Adoptable(Forgotten(m.vm, m.ram, dead), PageOf(vPml4), pid)
    modifies m`ram, m`vm, m.frames, m.frames.pageList
    ensures WellFormed(old(Forgotten(m.vm, m.ram, dead)))
    ensures pPml4.None? ==> AddSpace(old(Forgotten(m.vm, m.ram, dead)), PageOf(vPml4), pid) == None
    ensures pPml4.Some? ==>
      && m.Valid() && Top(pid) in m.vm.tables && pPml4.value == 4096 * m.vm.tables[Top(pid)]
      && var r := AddSpace(old(Forgotten(m.vm, m.ram, dead)), PageOf(vPml4), pid);
         r.Some? && m.vm == r.value.(data := m.vm.data)
         && UserDataSame(old(Forgotten(m.vm, m.ram, dead)), m.vm)
         && FilledAt(old(Forgotten(m.vm, m.ram, dead)), m.vm, m.vm.tables[Top(pid)])
  {
    hide Coupled, WellFormed, Adoptable, Canonical, PageOf, HwPml4, Reachable, MapPage, AddSpace, WordAt, ShowsFrame, KernelOnly, Mappable;
    hide PhysicalMemoryManager.Valid, PhysicalMemoryManager.View, PageIn, Translate, Adopt, BitOr;
    ForgottenCoupled(m.ram, m.vm, dead);
    m.vm := Forgotten(m.vm, m.ram, dead);
    ghost var v0 := m.vm;
    MappedReady(m.ram, m.vm, m.space, vPml4, pid);
    AddSpaceUnfold(v0, PageOf(vPml4), pid);
    var page := m.MapPhyaddr(vPml4);
    if page.None? {
      return None;
    }
    ghost var v1, f := m.vm, m.vm.pages[PageIn(m.space, PageOf(vPml4))].frame;
    AddSpaceIs(m.ram, v0, v1, m.space, vPml4, pid);
    var entry := page.value / 4096 * 4096;
    FillTop(m, vPml4, entry, f, pid);
    AdoptedData(v0, v1, m.vm, f, pid);
    pPml4 := Some(entry);
  }

  // The words of the new table; it is a table when the last one is written.
  method FillTop(m: Mmu, vPml4: nat, pPml4: nat, ghost f: nat, ghost pid: nat)
    requires m.Valid() && ShowsFrame(m.vm, m.space, vPml4, f) && pPml4 == 4096 * f
    requires Mappable(m.vm, f) && KernelOnly(m.vm, f) && Top(pid) !in m.vm.tables && pid != KERNEL
    modifies m`ram, m`vm
    ensures f < |old(m.vm).data| && m.Valid()
    ensures exists fr: Frame :: m.vm == Adopt(SetData(old(m.vm), f, fr), f, pid)
  {
    hide Coupled, WellFormed, Canonical, PageOf, HwPml4, WordAt, ShowsFrame, KernelOnly, Mappable;
    hide PhysicalMemoryManager.Valid, PhysicalMemoryManager.View, PageIn, Translate, BitOr;
    ghost var v1 := m.vm;
    ShownData(m.ram, m.vm, m.space, vPml4, f);
    ClearEntries(m, vPml4, f);
    var kernel := KernelEntry(m);
    WriteEntry(m, vPml4, KERNEL_SLOT, kernel, f);
    TopEntryWord(m.ram, m.vm, f);
    WriteEntry(m, vPml4, SELF_SLOT, BitOr(pPml4 / 4096 * 4096, 7), f);
    ghost var fr := m.ram[f];
    assert m.vm == SetData(v1, f, fr);
    SameMappable(v1, m.vm, f);
    AdoptCoupled(m.ram, m.vm, f, pid);
    CoupledValid(m.ram, m.vm);
    m.vm := Adopt(m.vm, f, pid);
  }

  lemma TopEntryWord(ram: Ram, vm: Vm, f: nat)
    requires Coupled(ram, vm) && f < |ram|
    ensures BitOr(4096 * f / 4096 * 4096, 7) == TableWord(f) < U64
  {
    EntryWords(f);
    CoupledValid(ram, vm);
    SmallWord(f);
  }

  lemma SameMappable(vm: Vm, v: Vm, f: nat)
    requires v == vm.(data := v.data)
    ensures Mappable(vm, f) ==> Mappable(v, f)
    ensures KernelOnly(vm, f) ==> KernelOnly(v, f)
  {
  }

  lemma AdoptedData(v0: Vm, v1: Vm, v: Vm, f: nat, pid: nat)
    requires f < |v1.data| && |v1.data| == |v0.data| && KernelOnly(v1, f)
    requires exists fr: Frame :: v == Adopt(SetData(v1, f, fr), f, pid)
    requires forall g :: 0 <= g < |v0.data| && g != f ==> g < |v1.data| && v1.data[g] == v0.data[g]
    ensures v == Adopt(v1, f, pid).(data := v0.data).(data := v.data) && UserDataSame(v0, v)
    ensures Top(pid) in v.tables && v.tables[Top(pid)] == f && FilledAt(v0, v, f)
  {
  }
}
