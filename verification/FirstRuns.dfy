/**
  Runs from boot that reach the departures of memory management: a frame that nobody can use
  any more, and a page that outlives its process.
 */
module FirstRuns {
  import opened Addressing
  import opened Booting
  import opened Coupling
  import opened Conservation
  import opened Departures
  import opened Exactness
  import opened FrameAllocator
  import opened Hardware
  import opened Isolation
  import opened Memory
  import opened Protection
  import opened Runs
  import opened Spaces
  import TaskMemory
  import opened TidyRuns
  import opened VirtualMemory
  import opened Wrappers

  // One page and a little more than one byte of it.
  const AREA := Vma(4096, 4097)

  // --------------------------------------------------------------- enough memory

  lemma NewSpaceGoes(s: Sys, l: Layout, slot: nat)
    requires Inv(s, l) && SlotFree(s, l, slot) && slot !in s.owner && |s.vm.alloc.free| >= 9
    ensures NewSpace(s, l, slot).Some? && |NewSpace(s, l, slot).value.alloc.free| >= |s.vm.alloc.free| - 4
  {
    SpaceForSlot(s, l, slot);
    assert Vacated(s, slot) == s.vm;
    var alias := l.Alias(slot);
    TaskMemory.AddSpaceUnfold(s.vm, alias, s.nextPid);
    hide WellFormed, MapPage, Adoptable, AddSpace, Missing;
    MapPageIff(s.vm, KERNEL, alias);
    AtMostThree(s.vm, KERNEL, alias);
  }

  lemma AtMostThree(vm: Vm, space: nat, n: nat)
    ensures Missing(vm, space, n) <= 3
  {
  }

  lemma ImageGoes(vm: Vm, pid: nat, n: nat, fr: Frame)
    requires WellFormed(vm) && InUse(vm, pid) && n < PAGE_LIMIT && Page(pid, n) !in vm.pages && |vm.alloc.free| >= 9
    ensures ImageOk([(n, fr)]) && LoadImage(vm, pid, [(n, fr)]).Some?
    ensures var w := LoadImage(vm, pid, [(n, fr)]).value;
            |w.alloc.free| >= |vm.alloc.free| - 4 && Page(pid, n) in w.pages
  {
    hide WellFormed, MapPage, Mappable, Missing, Reachable, Quiet, PageIn, FreeFrame;
    UserReachable(vm, pid, n);
    MapPageIff(vm, pid, n);
    AtMostThree(vm, pid, n);
    MapPageEffect(vm, pid, n);
    var v := MapPage(vm, pid, n).value;
    SetDataWellFormed(v, v.pages[Page(pid, n)].frame, fr);
    var w := SetData(v, v.pages[Page(pid, n)].frame, fr);
    assert [(n, fr)][1..] == [];
    assert LoadImage(w, pid, []) == Some(w);
  }

  // The copy of an area that reaches into one page needs tables for one page.
  lemma CopyGoes(vm: Vm, parent: nat, child: nat)
    requires WellFormed(vm) && InUse(vm, child) && parent != KERNEL && |vm.alloc.free| >= 8
    ensures Bounded([AREA])
    ensures CopyAreas(vm, parent, child, [AREA]).Some?
    ensures |CopyAreas(vm, parent, child, [AREA]).value.alloc.free| >= |vm.alloc.free| - 3
  {
    assert AreaFirst(AREA) == 1 && AreaLimit(AREA) == 2;
    assert [AREA][1..] == [];
    hide WellFormed, IncPages;
    var v := IncPages(vm, parent, 1, 2);
    IncFree(vm, parent, 1, 2);
    CowGoes(v, parent, child);
    assert CopyAreas(CowPages(v, parent, child, 1, 2).value, parent, child, []).Some?;
  }

  lemma CowGoes(vm: Vm, parent: nat, child: nat)
    requires WellFormed(vm) && InUse(vm, child) && parent != KERNEL && |vm.alloc.free| >= 8
    ensures CowPages(vm, parent, child, 1, 2).Some?
    ensures |CowPages(vm, parent, child, 1, 2).value.alloc.free| >= |vm.alloc.free| - 3
  {
    hide WellFormed, MapCow, Mappable, Missing, Reachable, Quiet, PageIn;
    if Page(parent, 1) in vm.pages {
      var f := vm.pages[Page(parent, 1)].frame;
      UserReachable(vm, child, 1);
      UserMappable(vm, Page(parent, 1));
      MapCowEffect(vm, child, 1, f);
      MapCowIff(vm, child, 1, f);
      AtMostThree(vm, child, 1);
      var v := MapCow(vm, child, 1, f).value;
      assert CowPages(v, parent, child, 2, 2) == Some(v);
    } else {
      assert CowPages(vm, parent, child, 2, 2) == Some(vm);
    }
  }

  lemma {:induction false} UnmapFreeGrows(vm: Vm, space: nat, a: nat, b: nat)
    requires WellFormed(vm) && Counted(vm) && space != KERNEL
    ensures |UnmapPages(vm, space, a, b).alloc.free| >= |vm.alloc.free|
    decreases b - a
  {
    hide WellFormed, Counted, Unmap, UnmapPages;
    if a >= b {
      UnmapPagesEnd(vm, space, a, b);
    } else {
      UnmapPagesStep(vm, space, a, b);
      if Page(space, a) in vm.pages {
        HeldCount(vm, Page(space, a));
        UnmapEffect(vm, Page(space, a));
        UnmapFreeGrows(Unmap(vm, Page(space, a)), space, a + 1, b);
      } else {
        UnmapFreeGrows(vm, space, a + 1, b);
      }
    }
  }

  // ------------------------------------------------------------ the first process

  const FIRST := Task(0, [AREA], 8192, true)

  // The first process runs and has its page.
  ghost predicate OneTask(s: Sys, l: Layout) {
    && Inv(s, l) && Tidy(s) && l.slots > 1 && s.active == 1 && s.nextPid == 2
    && s.tasks == map[1 := FIRST] && s.owner == map[0 := 1]
    && Page(1, 1) in s.vm.pages && |s.vm.alloc.free| >= 16
    && AliasShows(s.vm, l)
  }

  // The kernel page of the first process's top-level table is mapped, and may be written.
  ghost predicate AliasShows(vm: Vm, l: Layout) {
    Page(KERNEL, l.Alias(0)) in vm.pages && vm.pages[Page(KERNEL, l.Alias(0))].writable
  }

  lemma NewSpaceAlias(s: Sys, l: Layout)
    requires Inv(s, l) && SlotFree(s, l, 0) && 0 !in s.owner && NewSpace(s, l, 0).Some?
    ensures AliasShows(NewSpace(s, l, 0).value, l)
  {
    SpaceForSlot(s, l, 0);
    assert Vacated(s, 0) == s.vm;
    var alias := l.Alias(0);
    assert Page(KERNEL, alias) !in s.vm.pages;
    AliasReachable(s.vm, alias) by { assert alias / 512 / 512 / 512 == KERNEL_SLOT; }
    TaskMemory.AddSpaceUnfold(s.vm, alias, s.nextPid);
    hide WellFormed, MapPage, Adoptable, AddSpace, Reachable, Mappable, Quiet, FreeFrame;
    MapPageEffect(s.vm, KERNEL, alias);
  }

  lemma FirstGoes(base: nat, alloc: Frames, kernelTop: nat, data: seq<Frame>, l: Layout, fr: Frame)
    requires FreshPool(base, alloc, kernelTop, data) && l.Valid() && l.slots > 1 && |alloc.free| >= 24
    ensures var s := BareSys(BareVm(base, alloc, kernelTop, data));
            && Inv(s, l) && SlotFree(s, l, 0) && ImageOk([(1, fr)])
            && FirstSys(s, l, [AREA], 8192, [(1, fr)]).Some?
            && OneTask(FirstSys(s, l, [AREA], 8192, [(1, fr)]).value, l)
  {
    var s := BareSys(BareVm(base, alloc, kernelTop, data));
    BareInv(base, alloc, kernelTop, data, l);
    BareTidy(base, alloc, kernelTop, data);
    hide Inv, Tidy, FreshPool, OneTask;
    FirstFrom(s, l, fr);
  }

  lemma FirstFrom(s: Sys, l: Layout, fr: Frame)
    requires Inv(s, l) && Tidy(s) && s == BareSys(s.vm) && l.slots > 1 && |s.vm.alloc.free| >= 24
    ensures SlotFree(s, l, 0) && ImageOk([(1, fr)])
    ensures FirstSys(s, l, [AREA], 8192, [(1, fr)]).Some?
    ensures OneTask(FirstSys(s, l, [AREA], 8192, [(1, fr)]).value, l)
  {
    hide Inv, Tidy, TidyTask, AreasOk, LoadImage, InArea, ImageOk, NewSpace, WellFormed, Adoptable, InUse;
    FirstAreaTidy(fr);
    NewSpaceGoes(s, l, 0);
    FirstImage(s, l, fr);
    FirstAlias(s, l, fr);
    FirstInv(s, l, [AREA], 8192, [(1, fr)]);
    FirstTidy(s, l, [AREA], 8192, [(1, fr)]);
  }

  lemma FirstImage(s: Sys, l: Layout, fr: Frame)
    requires Inv(s, l) && Tidy(s) && s == BareSys(s.vm) && l.slots > 1 && |s.vm.alloc.free| >= 24
    requires SlotFree(s, l, 0) && NewSpace(s, l, 0).Some? && |NewSpace(s, l, 0).value.alloc.free| >= |s.vm.alloc.free| - 4
    ensures var v := NewSpace(s, l, 0).value;
            && InUse(v, 1) && ImageOk([(1, fr)]) && LoadImage(v, 1, [(1, fr)]).Some?
            && var w := LoadImage(v, 1, [(1, fr)]).value;
               |w.alloc.free| >= 16 && Page(1, 1) in w.pages
  {
    hide Inv, Tidy, LoadImage;
    NewSpaceExact(s, l, 0);
    NewSpaceKeeps(s, l, 0);
    ImageGoes(NewSpace(s, l, 0).value, 1, 1, fr);
  }

  lemma FirstAlias(s: Sys, l: Layout, fr: Frame)
    requires Inv(s, l) && Tidy(s) && s == BareSys(s.vm) && l.slots > 1
    requires SlotFree(s, l, 0) && NewSpace(s, l, 0).Some?
    ensures InUse(NewSpace(s, l, 0).value, 1) && ImageOk([(1, fr)])
    ensures LoadImage(NewSpace(s, l, 0).value, 1, [(1, fr)]).Some? ==>
              AliasShows(LoadImage(NewSpace(s, l, 0).value, 1, [(1, fr)]).value, l)
  {
    hide Inv, Tidy, LoadImage, NewSpace, WellFormed, Counted, Owned, InUse;
    NewSpaceKeeps(s, l, 0);
    NewSpaceAlias(s, l);
    var v := NewSpace(s, l, 0).value;
    ImageKeeps(v, s.parents[1 := 0], 1, [(1, fr)]);
    var r := LoadImage(v, 1, [(1, fr)]);
    assert r.Some? ==> Undisturbed(v, r.value, KERNEL);
  }

  lemma FirstAreaTidy(fr: Frame)
    ensures TidyTask(FIRST) && AreasOk([AREA]) && InArea([AREA], 1)
    ensures forall i {:trigger [(1, fr)][i]} :: 0 <= i < |[(1, fr)]| ==> InArea([AREA], [(1, fr)][i].0)
  {
    assert [AREA][0] == AREA && AreaFirst(AREA) == 1 && AreaLimit(AREA) == 2;
  }

  // -------------------------------------------------------------------- its child

  // The child runs and shares the page, which it may not write.
  ghost predicate TwoTasks(s: Sys, l: Layout, first: Task, free: nat) {
    && Inv(s, l) && Tidy(s) && s.nextPid == 3
    && s.tasks == map[1 := first, 2 := FIRST.(slot := 1)]
    && Page(2, 1) in s.vm.pages && !s.vm.pages[Page(2, 1)].writable
    && |s.vm.alloc.free| >= free
  }

  lemma ForkGoes(s: Sys, l: Layout)
    requires OneTask(s, l)
    ensures Enabled(s, l, Fork(1)) && Step(s, l, Fork(1)).Some?
    ensures var t := Step(s, l, Fork(1)).value;
            && TwoTasks(t, l, FIRST, 9) && t.active == 2 && 0 in t.owner && t.owner[0] == 1
            && Page(1, 1) in t.vm.pages && t.vm.pages[Page(1, 1)].frame == t.vm.pages[Page(2, 1)].frame
  {
    hide Inv, Tidy;
    NewSpaceGoes(s, l, 1);
    ForkCopies(s, l);
    StepInv(s, l, Fork(1));
    StepTidy(s, l, Fork(1));
  }

  lemma ForkCopies(s: Sys, l: Layout)
    requires OneTask(s, l) && Enabled(s, l, Fork(1)) && NewSpace(s, l, 1).Some?
    requires |NewSpace(s, l, 1).value.alloc.free| >= |s.vm.alloc.free| - 4
    ensures StepFork(s, l, 1).Some?
    ensures var t := StepFork(s, l, 1).value;
            && t == Started(s, t.vm, FIRST.(slot := 1)) && |t.vm.alloc.free| >= 9
            && Page(1, 1) in t.vm.pages && Page(2, 1) in t.vm.pages && !t.vm.pages[Page(2, 1)].writable
            && t.vm.pages[Page(1, 1)].frame == t.vm.pages[Page(2, 1)].frame
  {
    NewSpaceKeeps(s, l, 1);
    ActiveInUse(s, l);
    var v := NewSpace(s, l, 1).value;
    assert Undisturbed(s.vm, v, 1);
    hide Inv, Tidy, NewSpace, CopyAreas, Bounded, WellFormed, Counted, Owned;
    CopyGoes(v, 1, 2);
    CopyAreasFidelity(v, 1, 2, [AREA], 1);
    assert InArea([AREA], 1) by { FirstInArea(); }
  }

  lemma FirstInArea()
    ensures InArea([AREA], 1)
  {
    assert [AREA][0] == AREA && AreaFirst(AREA) == 1 && AreaLimit(AREA) == 2;
  }

  // ------------------------------------------------------------- the parent exits

  lemma ParentExits(s: Sys, l: Layout)
    requires TwoTasks(s, l, FIRST, 9) && s.active == 1
    ensures Enabled(s, l, Exit) && Step(s, l, Exit).Some?
    ensures TwoTasks(Step(s, l, Exit).value, l, FIRST.(areas := [], live := false), 9)
  {
    hide Inv, Tidy, ReleaseAreas, WellFormed, Counted;
    ExitKeepsPage(s, l);
    ActiveInUse(s, l);
    StepInv(s, l, Exit);
    StepTidy(s, l, Exit);
  }

  lemma ExitKeepsPage(s: Sys, l: Layout)
    requires TwoTasks(s, l, FIRST, 9) && s.active == 1
    ensures WellFormed(s.vm) && Counted(s.vm)
    ensures var v := ReleaseAreas(s.vm, 1, [AREA]);
            Page(2, 1) in v.pages && v.pages[Page(2, 1)] == s.vm.pages[Page(2, 1)] && |v.alloc.free| >= |s.vm.alloc.free|
  {
    ReleaseIsolated(s.vm, s.parents, 1, [AREA]);
    var v := ReleaseAreas(s.vm, 1, [AREA]);
    assert Undisturbed(s.vm, v, 2);
    hide Inv, Tidy, WellFormed, Counted, Owned, UnmapPages;
    assert [AREA][1..] == [];
    UnmapFreeGrows(s.vm, 1, AreaFirst(AREA), UnmapLimit(AREA));
    var w := UnmapPages(s.vm, 1, AreaFirst(AREA), UnmapLimit(AREA));
    assert ReleaseAreas(w, 1, []) == w;
  }

  // -------------------------------------------------------------- the child stores

  // Nobody else shows the page.
  lemma SoleOwner(s: Sys, l: Layout, q: Page)
    requires TwoTasks(s, l, FIRST.(areas := [], live := false), 6)
    requires q in s.vm.pages && s.vm.pages[q].frame == s.vm.pages[Page(2, 1)].frame
    ensures q == Page(2, 1)
  {
    hide WellFormed, Counted, AllExact, AliasesOk, KernelOk, TasksOk, Shared;
    assert q.space != KERNEL;
    assert q.space in s.tasks && InArea(s.tasks[q.space].areas, q.number);
  }

  lemma ChildSplits(vm: Vm)
    requires WellFormed(vm) && InUse(vm, 2) && Page(2, 1) in vm.pages && !vm.pages[Page(2, 1)].writable
    requires |vm.alloc.free| >= 6
    ensures Private(4096) && UserPage(2, 4096) == Page(2, 1)
    ensures Split(vm, Page(2, 1)).Some? && Access(vm, 2, [AREA], 4096, true) == Split(vm, Page(2, 1))
    ensures Permitted(Split(vm, Page(2, 1)).value, 2, 4096, true)
  {
    LowPrivate(4096);
    hide WellFormed, Split, PageOf, Private, Reachable, MapPage;
    SplitIff(vm, Page(2, 1));
    SplitEffect(vm, Page(2, 1));
    assert [AREA][0].Holds(4096);
  }

  lemma SplitOrphans(s: Sys, l: Layout)
    requires TwoTasks(s, l, FIRST.(areas := [], live := false), 6) && Split(s.vm, Page(2, 1)).Some?
    ensures var f := s.vm.pages[Page(2, 1)].frame;
            f >= s.vm.base && Lost(Split(s.vm, Page(2, 1)).value, f - s.vm.base)
  {
    hide Counted, Owned, AllExact, AliasesOk, KernelOk, TasksOk, Split, Lost, TidyTask, Inhabited;
    PageFrame(s.vm, Page(2, 1));
    forall q | q in s.vm.pages && s.vm.pages[q].frame == s.vm.pages[Page(2, 1)].frame
      ensures q == Page(2, 1)
    {
      SoleOwner(s, l, q);
    }
    hide WellFormed;
    OrphanIff(s.vm, Page(2, 1));
  }

  // The store splits the page, and the old frame is lost: the parent, the only other process
  // that showed it, has exited.
  lemma StoreOrphans(s: Sys, l: Layout, b: Byte)
    requires TwoTasks(s, l, FIRST.(areas := [], live := false), 6) && s.active == 2
    ensures Enabled(s, l, Store(4096, b)) && Step(s, l, Store(4096, b)).Some?
    ensures var f := s.vm.pages[Page(2, 1)].frame;
            var t := Step(s, l, Store(4096, b)).value;
            f >= t.vm.base && Lost(t.vm, f - t.vm.base)
  {
    hide Inv, Tidy, Split, WellFormed, Counted, Lost, AreasOk, Bounded, PageOf, Access, Private, Permitted, InUse;
    ActiveInUse(s, l);
    ChildSplits(s.vm);
    SplitOrphans(s, l);
    AccessPermits(s.vm, 2, [AREA], 4096, true);
    SplitEffect(s.vm, Page(2, 1));
    var v := Split(s.vm, Page(2, 1)).value;
    SameLost(v, StoreByte(v, 2, 4096, b));
  }

  // --------------------------------------------------------------------- the runs

  lemma RunCons(s: Sys, l: Layout, e: Event, rest: seq<Event>, t: Sys)
    requires Inv(s, l) && Enabled(s, l, e) && Step(s, l, e).Some?
    requires Inv(Step(s, l, e).value, l) && RunsTo(Step(s, l, e).value, l, rest, t)
    ensures RunsTo(s, l, [e] + rest, t)
  {
    hide Inv, Step, Enabled;
    assert ([e] + rest)[1..] == rest;
  }

  lemma Switches(s: Sys, l: Layout, first: Task, free: nat, pid: nat)
    requires TwoTasks(s, l, first, free) && pid in s.tasks && s.tasks[pid].live
    ensures Enabled(s, l, Switch(pid)) && Step(s, l, Switch(pid)) == Some(s.(active := pid))
    ensures TwoTasks(s.(active := pid), l, first, free)
  {
    hide Inv, Tidy;
    StepInv(s, l, Switch(pid));
    StepTidy(s, l, Switch(pid));
  }

  // The first process forks and exits, its child stores: a frame is neither free nor of use to
  // anybody.
  lemma OrphanHappens(s: Sys, l: Layout, b: Byte) returns (t: Sys, f: nat)
    requires OneTask(s, l)
    ensures RunsTo(s, l, [Fork(1)] + ([Switch(1)] + ([Exit] + ([Switch(2)] + ([Store(4096, b)] + [])))), t)
    ensures f >= t.vm.base && Lost(t.vm, f - t.vm.base)
  {
    hide Inv, Tidy, Lost, Step, Enabled, RunsTo;
    ForkGoes(s, l);
    var s1 := Step(s, l, Fork(1)).value;
    Switches(s1, l, FIRST, 9, 1);
    var s2 := s1.(active := 1);
    ParentExits(s2, l);
    var s3 := Step(s2, l, Exit).value;
    var gone := FIRST.(areas := [], live := false);
    Switches(s3, l, gone, 9, 2);
    var s4 := s3.(active := 2);
    StoreOrphans(s4, l, b);
    t, f := Step(s4, l, Store(4096, b)).value, s4.vm.pages[Page(2, 1)].frame;
    StepInv(s4, l, Store(4096, b));
    RunEnds(t, l);
    RunCons(s4, l, Store(4096, b), [], t);
    RunCons(s3, l, Switch(2), [Store(4096, b)] + [], t);
    RunCons(s2, l, Exit, [Switch(2)] + ([Store(4096, b)] + []), t);
    RunCons(s1, l, Switch(1), [Exit] + ([Switch(2)] + ([Store(4096, b)] + [])), t);
    RunCons(s, l, Fork(1), [Switch(1)] + ([Exit] + ([Switch(2)] + ([Store(4096, b)] + []))), t);
  }

  lemma RunEnds(s: Sys, l: Layout)
    requires Inv(s, l)
    ensures RunsTo(s, l, [], s)
  {
  }

  // ------------------------------------------- a store through the kernel's entries

  lemma OtherAlias(vm: Vm, v: Vm, l: Layout)
    requires AliasShows(vm, l) && l.Alias(0) != l.Alias(1)
    requires v.pages - {Page(KERNEL, l.Alias(1))} == vm.pages - {Page(KERNEL, l.Alias(1))}
    ensures AliasShows(v, l)
  {
    var p, p1 := Page(KERNEL, l.Alias(0)), Page(KERNEL, l.Alias(1));
    assert p in vm.pages - {p1} && (vm.pages - {p1})[p] == vm.pages[p];
    assert p in v.pages && v.pages[p] == (v.pages - {p1})[p];
  }

  lemma ForkAliasNew(s: Sys, l: Layout)
    requires OneTask(s, l) && SlotFree(s, l, 1) && NewSpace(s, l, 1).Some?
    ensures AliasShows(NewSpace(s, l, 1).value, l)
  {
    assert Vacated(s, 1) == s.vm && l.Alias(0) != l.Alias(1) by { AliasesDiffer(s, l); }
    hide Inv, Tidy, WellFormed, Adoptable, AddSpace, TopsSame, AliasShows, Layout.Alias, Vacated;
    SpaceForSlot(s, l, 1);
    AddSpaceTops(s.vm, l.Alias(1), 2);
    OtherAlias(s.vm, NewSpace(s, l, 1).value, l);
  }

  lemma AliasesDiffer(s: Sys, l: Layout)
    requires Inv(s, l) && l.slots > 1
    ensures l.Alias(0) != l.Alias(1)
  {
    hide WellFormed, Counted, Owned, AliasesOk, KernelOk, TasksOk;
  }

  lemma ForkAlias(s: Sys, l: Layout)
    requires OneTask(s, l) && Enabled(s, l, Fork(1)) && StepFork(s, l, 1).Some?
    ensures AliasShows(StepFork(s, l, 1).value.vm, l)
  {
    hide Inv, Tidy, NewSpace, StepFork, TopsSame, WellFormed, Counted, Owned, Started;
    ForkKeeps(s, l, 1);
    ForkAliasNew(s, l);
  }

  // An address of the kernel page of the first process's top-level table, at the word through
  // which its walk to address `x` starts.
  function AliasAddress(l: Layout, x: nat): nat {
    0xFFFF_0000_0000_0000 + l.Alias(0) * 0x1000 + 8 * HwPml4(x)
  }

  // In this memory a store of the process in slot 1, which the walk grants, takes away a page
  // that the process in slot 0 could read.
  ghost predicate Exposed(ram: Ram, vm: Vm, a: nat) {
    && Top(1) in vm.tables && Top(2) in vm.tables && vm.tables[Top(1)] < |ram| && vm.tables[Top(2)] < |ram|
    && var f, hit := vm.tables[Top(1)], Translate(ram, vm.tables[Top(2)], a);
    && TaskMemory.Grants(hit, true) && hit.value.frame == f
    && TaskMemory.Grants(Translate(ram, f, 4096), false)
    && Translate(ram[f := ram[f][OffsetOf(a) := 0]], f, 4096) == None
  }

  lemma AliasAddressIs(s: Sys, l: Layout)
    requires Inv(s, l) && 0 < l.slots
    ensures var a := AliasAddress(l, 4096); Canonical(a) && PageOf(a) == l.Alias(0) && OffsetOf(a) == 8 * HwPml4(4096)
  {
    hide WellFormed, Counted, Owned, AliasesOk, KernelOk, TasksOk;
    assert l.Alias(0) / 512 / 512 / 512 == KERNEL_SLOT;
    hide Canonical, PageOf, OffsetOf, HwPml4;
    UpperAddress(l.Alias(0), 8 * HwPml4(4096));
  }

  lemma AliasExposes(s: Sys, l: Layout, ram: Ram)
    requires Inv(s, l) && AliasShows(s.vm, l) && 0 < l.slots && 0 in s.owner && s.owner[0] == 1
    requires Top(1) in s.vm.tables && Top(2) in s.vm.tables && Page(1, 1) in s.vm.pages && Coupled(ram, s.vm)
    ensures Exposed(ram, s.vm, AliasAddress(l, 4096))
  {
    var a := AliasAddress(l, 4096);
    AliasAddressIs(s, l);
    LowPrivate(4096);
    hide Inv, Coupled, Translate, Canonical, PageOf, OffsetOf, HwPml4, Private, AliasAddress;
    TaskMemory.PrivateGrants(ram, s.vm, 1, 4096, false);
    AliasBreaks(s, l, ram, 2, 0, a, 4096);
  }

  // After its fork the first process is exposed to its child.
  lemma AliasHappens(s: Sys, l: Layout)
    requires OneTask(s, l)
    ensures Enabled(s, l, Fork(1)) && Step(s, l, Fork(1)).Some?
    ensures var t := Step(s, l, Fork(1)).value;
            && t.active == 2 && WellFormed(t.vm) && Coupled(Picture(t.vm), t.vm)
            && Exposed(Picture(t.vm), t.vm, AliasAddress(l, 4096))
  {
    ForkGoes(s, l);
    ForkAlias(s, l);
    var t := Step(s, l, Fork(1)).value;
    hide Tidy, Step, Enabled, Coupled, Exposed, AliasShows;
    LiveTops(t, l);
    PictureCoupled(t.vm);
    hide Inv;
    AliasExposes(t, l, Picture(t.vm));
  }

  lemma LiveTops(s: Sys, l: Layout)
    requires TwoTasks(s, l, FIRST, 9)
    ensures WellFormed(s.vm) && Top(1) in s.vm.tables && Top(2) in s.vm.tables
  {
    hide WellFormed, Counted, Owned, AliasesOk, KernelOk, Tidy;
    assert 1 in s.tasks && 2 in s.tasks;
  }

  // ------------------------------------------------- a page that outlives its process

  const EDGE := Vma(4096, 4096)

  lemma EdgeArea(t: Task)
    requires t.areas == [] && t.heapTop == 4096
    ensures AfterMmap(t, 1) == t.(areas := [EDGE], heapTop := 8192)
    ensures PageDisjoint([EDGE]) && Plain([EDGE]) && InArea([EDGE], 1) && EndsAt([EDGE], 1) && Spaces.Covered([EDGE], 4096) && Bounded([EDGE])
  {
    assert [EDGE][0] == EDGE && AreaFirst(EDGE) == 1 && AreaLimit(EDGE) == 2 && EDGE.Holds(4096);
  }

  // The first process runs, and has nothing.
  ghost predicate BareTask(s: Sys, l: Layout) {
    && Inv(s, l) && Tidy(s) && s.active == 1 && s.tasks == map[1 := Task(0, [], 4096, true)]
    && |s.vm.alloc.free| >= 9
  }

  lemma BareGoes(base: nat, alloc: Frames, kernelTop: nat, data: seq<Frame>, l: Layout)
    requires FreshPool(base, alloc, kernelTop, data) && l.Valid() && l.slots > 0 && |alloc.free| >= 13
    ensures var s := BareSys(BareVm(base, alloc, kernelTop, data));
            && Inv(s, l) && SlotFree(s, l, 0)
            && FirstSys(s, l, [], 4096, []).Some?
            && BareTask(FirstSys(s, l, [], 4096, []).value, l)
  {
    var s := BareSys(BareVm(base, alloc, kernelTop, data));
    BareInv(base, alloc, kernelTop, data, l);
    BareTidy(base, alloc, kernelTop, data);
    hide Inv, Tidy, FreshPool, BareTask;
    BareFrom(s, l);
  }

  lemma BareFrom(s: Sys, l: Layout)
    requires Inv(s, l) && Tidy(s) && s == BareSys(s.vm) && l.slots > 0 && |s.vm.alloc.free| >= 13
    ensures SlotFree(s, l, 0)
    ensures FirstSys(s, l, [], 4096, []).Some?
    ensures BareTask(FirstSys(s, l, [], 4096, []).value, l)
  {
    hide Inv, Tidy, NewSpace, WellFormed, Adoptable, InUse;
    NewSpaceGoes(s, l, 0);
    NewSpaceKeeps(s, l, 0);
    FirstInv(s, l, [], 4096, []);
    FirstTidy(s, l, [], 4096, []);
  }

  // A store to a page nobody has mapped yet.
  lemma EdgeMaps(vm: Vm)
    requires WellFormed(vm) && InUse(vm, 1) && AllExact(vm) && Page(1, 1) !in vm.pages && |vm.alloc.free| >= 9
    ensures Private(4096) && UserPage(1, 4096) == Page(1, 1)
    ensures Access(vm, 1, [EDGE], 4096, true).Some?
    ensures var v := Access(vm, 1, [EDGE], 4096, true).value;
            && WellFormed(v) && Permitted(v, 1, 4096, true) && Page(1, 1) in v.pages && AllExact(v)
            && v.pages[Page(1, 1)].frame < |v.data|
  {
    hide HwPml4, Canonical, Reachable, Bounded, WellFormed, AllExact, PageOf, Private, Access, Missing, InUse, Split, MapPage;
    LowPrivate(4096);
    EdgeArea(Task(0, [], 4096, true));
    AtMostThree(vm, 1, 1);
    AccessFailsIff(vm, 1, [EDGE], 4096, true);
    AccessPermits(vm, 1, [EDGE], 4096, true);
    AccessExact(vm, 1, [EDGE], 4096, true);
  }

  lemma EdgeStored(s: Sys, l: Layout, b: Byte)
    requires Inv(s, l) && Running(s) && s.active == 1 && s.tasks[1].areas == [EDGE] && AllExact(s.vm)
    requires Page(1, 1) !in s.vm.pages && |s.vm.alloc.free| >= 9
    ensures Enabled(s, l, Store(4096, b)) && Step(s, l, Store(4096, b)).Some?
    ensures var t := Step(s, l, Store(4096, b)).value;
            t == s.(vm := t.vm) && Page(1, 1) in t.vm.pages && AllExact(t.vm)
  {
    hide Inv, WellFormed, Counted, AllExact, AreasOk, Bounded, PageOf, Private, Access, InUse, Permitted;
    ActiveInUse(s, l);
    EdgeMaps(s.vm);
    var v := Access(s.vm, 1, [EDGE], 4096, true).value;
    AccessPermits(s.vm, 1, [EDGE], 4096, true);
    SameExact(v, StoreByte(v, 1, 4096, b));
  }

  lemma EdgeStays(vm: Vm)
    requires WellFormed(vm) && Counted(vm) && AllExact(vm) && Page(1, 1) in vm.pages
    ensures Page(1, 1) in ReleaseAreas(vm, 1, [EDGE]).pages
  {
    EdgeArea(Task(0, [], 4096, true));
    hide WellFormed, Counted, AllExact, ReleaseAreas, PageDisjoint, Plain, InArea, EndsAt;
    LeftBehindIff(vm, 1, [EDGE], 1);
  }

  lemma EdgeExits(s: Sys, l: Layout)
    requires Inv(s, l) && Running(s) && s.active == 1 && s.tasks[1].areas == [EDGE] && AllExact(s.vm)
    requires Page(1, 1) in s.vm.pages
    ensures Enabled(s, l, Exit) && Step(s, l, Exit).Some?
    ensures var t := Step(s, l, Exit).value; Page(1, 1) in t.vm.pages && 1 in t.tasks && !t.tasks[1].live
  {
    hide Inv, WellFormed, Counted, AllExact, ReleaseAreas, AreasOk, Bounded, InUse;
    ActiveInUse(s, l);
    EdgeStays(s.vm);
  }

  // A mapping of one byte, a store to it, an exit: the page stays mapped.
  lemma LeakHappens(s: Sys, l: Layout, b: Byte) returns (t: Sys)
    requires BareTask(s, l)
    ensures RunsTo(s, l, [Mmap(1)] + ([Store(4096, b)] + ([Exit] + [])), t)
    ensures Page(1, 1) in t.vm.pages && 1 in t.tasks && !t.tasks[1].live
  {
    NoPage(s, l);
    EdgeArea(s.tasks[1]);
    hide Inv, Tidy, AllExact, Step, Enabled, RunsTo;
    MapsEdge(s, l);
    var s1 := Step(s, l, Mmap(1)).value;
    EdgeStored(s1, l, b);
    StepInv(s1, l, Store(4096, b));
    var s2 := Step(s1, l, Store(4096, b)).value;
    EdgeExits(s2, l);
    StepInv(s2, l, Exit);
    t := Step(s2, l, Exit).value;
    RunEnds(t, l);
    RunCons(s2, l, Exit, [], t);
    RunCons(s1, l, Store(4096, b), [Exit] + [], t);
    RunCons(s, l, Mmap(1), [Store(4096, b)] + ([Exit] + []), t);
  }

  lemma NoPage(s: Sys, l: Layout)
    requires BareTask(s, l)
    ensures Page(1, 1) !in s.vm.pages && AllExact(s.vm)
  {
    hide Inv, AllExact;
    assert !InArea([], 1);
  }

  lemma MapsEdge(s: Sys, l: Layout)
    requires BareTask(s, l)
    ensures Enabled(s, l, Mmap(1)) && Step(s, l, Mmap(1)).Some? && Inv(Step(s, l, Mmap(1)).value, l)
    ensures Step(s, l, Mmap(1)).value == s.(tasks := map[1 := Task(0, [EDGE], 8192, true)])
  {
    hide Inv, Tidy, StepFork, StepExec, StepLoad, StepStore, StepMunmap, StepExit, AfterMmap, Mapping;
    EdgeArea(s.tasks[1]);
    StepInv(s, l, Mmap(1));
    assert s.tasks[1 := Task(0, [EDGE], 8192, true)] == map[1 := Task(0, [EDGE], 8192, true)];
  }

  // ------------------------------------------------------------ there is such a boot

  const LAYOUT := Layout(2, 0xF_F800_0001)

  lemma BootsExist()
    ensures LAYOUT.Valid() && LAYOUT.slots == 2 && |SmallPool(24).free| == 24
    ensures FreshPool(0, SmallPool(24), 25, BootRam(27, 25, 26))
  {
    SmallBoot(24);
  }
}
