/**
  Fork followed by exit.  The child loads, stores, faults, maps and unmaps as it likes;
  when it is gone every frame that was held before has its old count, and every frame that
  was free is free again unless it now is a page table.
 */
module ForkExit {
  import opened Addressing
  import opened Conservation
  import opened Counting
  import opened Exactness
  import opened Isolation
  import opened Memory
  import opened Runs
  import opened Spaces
  import opened TidyRuns
  import opened VirtualMemory

  ghost predicate TablesKept(vm: Vm, v: Vm) {
    forall t {:trigger t in v.tables} {:trigger v.tables[t]} ::
      t in vm.tables ==> t in v.tables && v.tables[t] == vm.tables[t]
  }

  // What everybody but `space` has is untouched, and no frame is lost or found.
  ghost predicate Apart(vm: Vm, v: Vm, space: nat) {
    && v.base == vm.base && |v.alloc.refs| == |vm.alloc.refs|
    && KeepsLost(vm, v) && TablesKept(vm, v)
    && (forall q {:trigger Undisturbed(vm, v, q)} :: q != space ==> Undisturbed(vm, v, q))
  }

  lemma ApartTransitive(vm: Vm, v: Vm, w: Vm, space: nat)
    requires Apart(vm, v, space) && Apart(v, w, space)
    ensures Apart(vm, w, space)
  {
    KeepsLostTransitive(vm, v, w);
    hide KeepsLost, Undisturbed;
    forall q | q != space
      ensures Undisturbed(vm, w, q)
    {
      assert Undisturbed(vm, v, q);
      UndisturbedTransitive(vm, v, w, q);
    }
  }

  // The child's read-only pages are pages of its parent.
  ghost predicate Borrows(vm: Vm, parent: nat, child: nat) {
    forall n: nat {:trigger Page(child, n)} :: Page(child, n) in vm.pages && !vm.pages[Page(child, n)].writable ==>
      Page(parent, n) in vm.pages && vm.pages[Page(parent, n)].frame == vm.pages[Page(child, n)].frame
  }

  lemma AccessApart(s: Sys, l: Layout, a: nat, write: bool, parent: nat)
    requires Inv(s, l) && Tidy(s) && Running(s) && Private(a)
    requires Borrows(s.vm, parent, s.active) && parent != s.active
    ensures InUse(s.vm, s.active)
    ensures var r := Access(s.vm, s.active, s.tasks[s.active].areas, a, write);
      r.Some? ==> Apart(s.vm, r.value, s.active) && Borrows(r.value, parent, s.active)
  {
    hide WellFormed, Counted, Owned, AllExact, TasksOk, AliasesOk, KernelOk, TidyTask, InArea, KeepsLost, Undisturbed;
    hide MapPage, Split, Reachable, Mappable, FreeFrame, PageIn, Covered, ZeroPrefix, Inhabited;
    ActiveInUse(s, l);
    AccessKeeps(s, l, a, write);
    PrivateReachable(s.vm, s.active, a);
    KeepsLostSelf(s.vm);
    var p := UserPage(s.active, a);
    if p in s.vm.pages {
      SplitEffect(s.vm, p);
      if !s.vm.pages[p].writable {
        SplitLost(s.vm, p, Page(parent, PageOf(a)));
      }
    } else {
      MapPageEffect(s.vm, s.active, PageOf(a));
      MapPageLost(s.vm, s.active, PageOf(a));
    }
  }

  lemma StoreApart(vm: Vm, space: nat, a: nat, b: Byte, parents: map<nat, nat>)
    requires WellFormed(vm) && Owned(vm, parents) && Permitted(vm, space, a, true) && space != KERNEL
    ensures vm.pages[UserPage(space, a)].frame < |vm.data|
    ensures SameLostTables(vm, StoreByte(vm, space, a, b))
  {
    FramesInData(vm);
    SameLost(vm, StoreByte(vm, space, a, b));
  }

  ghost predicate SameLostTables(vm: Vm, v: Vm) {
    KeepsLost(vm, v) && v.tables == vm.tables && v.pages == vm.pages && v.base == vm.base && v.alloc == vm.alloc
  }

  // A child at work: it only maps, unmaps and uses memory, its stack included.
  predicate AtWork(e: Event) {
    match e
    case Load(a) => true
    case Store(a, b) => true
    case Mmap(length) => length % 4096 != 1
    case Munmap(a, length) => true
    case KernelStore(a, b) => true
    case _ => false
  }

  // What holds while the child is at work: nothing about the others that could tell.
  ghost predicate Quietly(vm0: Vm, s: Sys, l: Layout, parent: nat, child: nat) {
    && Inv(s, l) && Tidy(s) && s.active == child && Running(s) && parent != child && child != KERNEL
    && Kept(vm0, s.vm, child) && Borrows(s.vm, parent, child)
  }

  // Like Apart, but bytes may differ: stores of the child show in its own descendants.
  ghost predicate Kept(vm: Vm, v: Vm, space: nat) {
    && v.base == vm.base && |v.alloc.refs| == |vm.alloc.refs|
    && KeepsLost(vm, v) && TablesKept(vm, v)
    && (forall p: Page {:trigger p in v.pages} {:trigger v.pages[p]} {:trigger p in vm.pages} :: p.space != space ==>
          (p in v.pages <==> p in vm.pages) && (p in vm.pages ==> v.pages[p] == vm.pages[p]))
  }

  lemma ApartKept(vm: Vm, v: Vm, space: nat)
    requires Apart(vm, v, space)
    ensures Kept(vm, v, space)
  {
    hide KeepsLost;
    forall p: Page {:trigger p in v.pages} | p.space != space
      ensures p in v.pages <==> p in vm.pages
      ensures p in vm.pages ==> v.pages[p] == vm.pages[p]
    {
      assert Undisturbed(vm, v, p.space);
    }
  }

  lemma KeptTransitive(vm: Vm, v: Vm, w: Vm, space: nat)
    requires Kept(vm, v, space) && Kept(v, w, space)
    ensures Kept(vm, w, space)
  {
    KeepsLostTransitive(vm, v, w);
    hide KeepsLost;
  }

  lemma KeptSame(vm: Vm, v: Vm, space: nat)
    requires SameLostTables(vm, v)
    ensures Kept(vm, v, space)
  {
    hide KeepsLost;
  }

  lemma WorkStep(vm0: Vm, s: Sys, l: Layout, parent: nat, child: nat, e: Event)
    requires Quietly(vm0, s, l, parent, child) && AtWork(e) && Enabled(s, l, e) && Step(s, l, e).Some?
    ensures Quietly(vm0, Step(s, l, e).value, l, parent, child)
  {
    hide WellFormed, Counted, Owned, TasksOk, AliasesOk, KernelOk, Tidy, Borrows, Kept, Access;
    StepInv(s, l, e);
    StepTidy(s, l, e);
    var t := Step(s, l, e).value;
    match e
    case Load(a) =>
      AccessApart(s, l, a, false, parent);
      ApartKept(s.vm, t.vm, child);
      KeptTransitive(vm0, s.vm, t.vm, child);
    case Store(a, b) => StoreWork(vm0, s, l, parent, child, a, b);
    case Mmap(length) =>
    case Munmap(a, length) => MunmapWork(vm0, s, l, parent, child, a, length);
    case KernelStore(a, b) => StackWork(vm0, s, l, parent, child, a, b);
  }

  lemma StackSame(vm: Vm, a: nat, b: Byte)
    requires WellFormed(vm) && KernelPage(a) in vm.pages
    ensures SameLostTables(vm, KernelStored(vm, a, b))
  {
    hide WellFormed, PageOf;
    SameLost(vm, KernelStored(vm, a, b));
  }

  lemma StackWork(vm0: Vm, s: Sys, l: Layout, parent: nat, child: nat, a: nat, b: Byte)
    requires Quietly(vm0, s, l, parent, child) && WellFormed(s.vm) && KernelPage(a) in s.vm.pages
    requires Inv(s.(vm := KernelStored(s.vm, a, b)), l) && Tidy(s.(vm := KernelStored(s.vm, a, b)))
    ensures Quietly(vm0, s.(vm := KernelStored(s.vm, a, b)), l, parent, child)
  {
    hide Inv, Tidy, Kept, PageOf, WellFormed, KernelStored, SameLostTables;
    var v := KernelStored(s.vm, a, b);
    StackSame(s.vm, a, b);
    KeptSame(s.vm, v, child);
    KeptTransitive(vm0, s.vm, v, child);
    BorrowsSame(s.vm, v, parent, child);
  }

  lemma BorrowsSame(vm: Vm, v: Vm, parent: nat, child: nat)
    requires Borrows(vm, parent, child) && SameLostTables(vm, v)
    ensures Borrows(v, parent, child)
  {
    hide KeepsLost;
  }

  lemma StoreWork(vm0: Vm, s: Sys, l: Layout, parent: nat, child: nat, a: nat, b: Byte)
    requires Quietly(vm0, s, l, parent, child) && Enabled(s, l, Store(a, b)) && StepStore(s, l, a, b).Some?
    ensures var t := StepStore(s, l, a, b).value;
      t == s.(vm := t.vm) && Kept(vm0, t.vm, child) && Borrows(t.vm, parent, child)
  {
    hide WellFormed, Counted, Owned, TasksOk, AliasesOk, KernelOk, Tidy, Kept, Access, KeepsLost, Permitted;
    AccessApart(s, l, a, true, parent);
    AccessKeeps(s, l, a, true);
    var v := Access(s.vm, s.active, s.tasks[s.active].areas, a, true).value;
    StoreApart(v, s.active, a, b, s.parents);
    ApartKept(s.vm, v, child);
    KeptSame(v, StepStore(s, l, a, b).value.vm, child);
    KeptTransitive(vm0, s.vm, v, child);
    KeptTransitive(vm0, v, StepStore(s, l, a, b).value.vm, child);
  }

  lemma MunmapWork(vm0: Vm, s: Sys, l: Layout, parent: nat, child: nat, a: nat, length: nat)
    requires Quietly(vm0, s, l, parent, child) && Enabled(s, l, Munmap(a, length)) && StepMunmap(s, l, a, length).Some?
    ensures Kept(vm0, StepMunmap(s, l, a, length).value.vm, child)
    ensures Borrows(StepMunmap(s, l, a, length).value.vm, parent, child)
  {
    hide WellFormed, Counted, Owned, TasksOk, AliasesOk, KernelOk, TidyTask, AllExact, KeepsLost, Undisturbed, UnmapPages;
    ActiveInUse(s, l);
    var t := s.tasks[s.active];
    var i := FirstCover(t.areas, a, a + length);
    var x, y := AreaFirst(t.areas[i]), UnmapLimit(t.areas[i]);
    UnmapPagesLost(s.vm, child, x, y);
    UnmapPagesIsolated(s.vm, s.parents, child, x, y);
    UnmapPagesSame(s.vm, child, x, y);
    var v := UnmapPages(s.vm, child, x, y);
    assert Apart(s.vm, v, child);
    ApartKept(s.vm, v, child);
    KeptTransitive(vm0, s.vm, v, child);
  }

  // What an unmapping leaves is as it was.
  lemma {:induction false} UnmapPagesSame(vm: Vm, space: nat, a: nat, b: nat)
    requires WellFormed(vm) && Counted(vm) && space != KERNEL
    ensures var v := UnmapPages(vm, space, a, b);
      && v.base == vm.base && |v.alloc.refs| == |vm.alloc.refs|
      && (forall p: Page {:trigger p in v.pages} {:trigger v.pages[p]} :: p in v.pages ==>
            p in vm.pages && v.pages[p] == vm.pages[p])
    decreases b - a
  {
    hide WellFormed, Counted, Unmap, UnmapPages;
    if a >= b {
      UnmapPagesEnd(vm, space, a, b);
    } else {
      UnmapPagesStep(vm, space, a, b);
      if Page(space, a) !in vm.pages {
        UnmapPagesSame(vm, space, a + 1, b);
      } else {
        HeldCount(vm, Page(space, a));
        UnmapEffect(vm, Page(space, a));
        UnmapPagesSame(Unmap(vm, Page(space, a)), space, a + 1, b);
      }
    }
  }

  // ------------------------------------------------------------------ the run

  lemma {:induction false} WorkRun(vm0: Vm, s: Sys, l: Layout, parent: nat, child: nat, events: seq<Event>, t: Sys)
    returns (m: Sys)
    requires Quietly(vm0, s, l, parent, child)
    requires forall i :: 0 <= i < |events| ==> AtWork(events[i])
    requires Inv(s, l) && RunsTo(s, l, events + [Exit], t)
    ensures Quietly(vm0, m, l, parent, child) && Inv(m, l) && Enabled(m, l, Exit)
    ensures t == StepExit(m, l)
    decreases |events|
  {
    hide WellFormed, Counted, Owned, TasksOk, AliasesOk, KernelOk, Tidy, Kept, Borrows, AtWork, StepExit, StepFork, StepExec;
    hide StepLoad, StepStore, StepMunmap, Enabled;
    var all := events + [Exit];
    if events == [] {
      assert all[0] == Exit && all[1..] == [];
      StepInv(s, l, Exit);
      ExitEnabled(s, l);
      m := s;
    } else {
      assert all[0] == events[0] && all[1..] == events[1..] + [Exit];
      StepInv(s, l, events[0]);
      WorkStep(vm0, s, l, parent, child, events[0]);
      m := WorkRun(vm0, Step(s, l, events[0]).value, l, parent, child, events[1..], t);
    }
  }

  lemma ExitEnabled(s: Sys, l: Layout)
    requires Running(s)
    ensures Enabled(s, l, Exit)
  {
  }

  // The space of the new process: nothing lost, kernel pages kept, its alias added.
  lemma AddSpaceKept(vm: Vm, alias: nat, pid: nat)
    requires WellFormed(vm) && Adoptable(vm, alias, pid)
    ensures AddSpace(vm, alias, pid).Some? ==>
      var v := AddSpace(vm, alias, pid).value; var p := Page(KERNEL, alias);
      && v.base == vm.base && |v.alloc.refs| == |vm.alloc.refs|
      && KeepsLost(vm, v) && TablesKept(vm, v) && IsTable(v, v.pages[p].frame)
      && p in v.pages && v.pages == vm.pages[p := v.pages[p]]
      && (p in vm.pages ==> v.pages == vm.pages)
  {
    hide WellFormed, MapPage, Reachable, Mappable, FreeFrame, KernelOnly, PageIn, ZeroPrefix, KeepsLost;
    MappedAlias(vm, alias, pid);
    AddSpaceLost(vm, alias, pid);
    var r := MapPage(vm, KERNEL, alias);
    if r.Some? {
      if Page(KERNEL, alias) in vm.pages {
        MapPagePresent(vm, KERNEL, alias);
      }
      var v := AddSpace(vm, alias, pid).value;
      assert Top(pid) in v.tables;
    }
  }

  lemma ForkStart(s: Sys, l: Layout, slot: nat)
    requires Inv(s, l) && Tidy(s) && Enabled(s, l, Fork(slot)) && StepFork(s, l, slot).Some?
    ensures NewSpace(s, l, slot).Some?
    ensures Quietly(NewSpace(s, l, slot).value, StepFork(s, l, slot).value, l, s.active, s.nextPid)
  {
    hide WellFormed, Counted, Owned, AliasesOk, KernelOk, AllExact, NewSpace, CopyAreas, InArea, Bounded, InUse, Undisturbed, TidyTask;
    hide KeepsLost, TopsSame;
    ActiveInUse(s, l);
    InUseUser(s.vm, s.active);
    NewSpaceKeeps(s, l, slot);
    NewSpaceExact(s, l, slot);
    ForkInv(s, l, slot);
    ForkTidy(s, l, slot);
    ForkKeeps(s, l, slot);
    var v, t, u := NewSpace(s, l, slot).value, s.tasks[s.active], StepFork(s, l, slot).value;
    assert forall m: nat {:trigger Page(s.nextPid, m)} :: Page(s.nextPid, m) !in v.pages;
    TidyDisjoint(t);
    CopyAreasLost(v, s.active, s.nextPid, t.areas);
    CopyAreasTables(v, s.active, s.nextPid, t.areas);
    assert u.vm == CopyAreas(v, s.active, s.nextPid, t.areas).value;
    assert Apart(v, u.vm, s.nextPid);
    ApartKept(v, u.vm, s.nextPid);
    forall n: nat {:trigger Page(s.nextPid, n)} | Page(s.nextPid, n) in u.vm.pages && !u.vm.pages[Page(s.nextPid, n)].writable
      ensures Page(s.active, n) in u.vm.pages
      ensures u.vm.pages[Page(s.active, n)].frame == u.vm.pages[Page(s.nextPid, n)].frame
    {
      CopyAreasFidelity(v, s.active, s.nextPid, t.areas, n);
    }
  }

  lemma TidyDisjoint(t: Task)
    requires TidyTask(t)
    ensures PageDisjoint(t.areas)
  {
  }

  lemma {:induction false} CowPagesTables(vm: Vm, parent: nat, child: nat, a: nat, b: nat)
    requires WellFormed(vm) && InUse(vm, child) && parent != KERNEL && b <= PAGE_LIMIT
    ensures CowPages(vm, parent, child, a, b).Some? ==>
      var v := CowPages(vm, parent, child, a, b).value;
      TablesKept(vm, v) && v.base == vm.base && |v.alloc.refs| == |vm.alloc.refs|
    decreases b - a
  {
    hide WellFormed, MapCow, Mappable, Reachable, PageIn, FreeFrame;
    if a < b {
      if Page(parent, a) !in vm.pages {
        CowPagesTables(vm, parent, child, a + 1, b);
      } else {
        var f := vm.pages[Page(parent, a)].frame;
        UserReachable(vm, child, a);
        UserMappable(vm, Page(parent, a));
        MapCowEffect(vm, child, a, f);
        var r := MapCow(vm, child, a, f);
        if r.Some? {
          CowPagesTables(r.value, parent, child, a + 1, b);
        }
      }
    }
  }

  lemma {:induction false} CopyAreasTables(vm: Vm, parent: nat, child: nat, areas: seq<Vma>)
    requires WellFormed(vm) && InUse(vm, child) && parent != KERNEL && Bounded(areas)
    ensures CopyAreas(vm, parent, child, areas).Some? ==>
      var v := CopyAreas(vm, parent, child, areas).value;
      TablesKept(vm, v) && v.base == vm.base && |v.alloc.refs| == |vm.alloc.refs|
    decreases |areas|
  {
    hide WellFormed, CowPages, IncPages, Bounded;
    if areas != [] {
      BoundedTail(areas);
      var a, b := AreaFirst(areas[0]), AreaLimit(areas[0]);
      var v := IncPages(vm, parent, a, b);
      CowPagesTables(v, parent, child, a, b);
      var r := CowPages(v, parent, child, a, b);
      if r.Some? {
        CopyAreasTables(r.value, parent, child, areas[1..]);
      }
    }
  }

  lemma {:induction false} ReleaseSame(vm: Vm, space: nat, areas: seq<Vma>)
    requires WellFormed(vm) && Counted(vm) && space != KERNEL
    ensures var v := ReleaseAreas(vm, space, areas);
      && v.base == vm.base && |v.alloc.refs| == |vm.alloc.refs|
      && (forall p: Page {:trigger p in v.pages} {:trigger v.pages[p]} :: p in v.pages ==>
            p in vm.pages && v.pages[p] == vm.pages[p])
    decreases |areas|
  {
    hide WellFormed, Counted, UnmapPages;
    if areas != [] {
      UnmapPagesSame(vm, space, AreaFirst(areas[0]), UnmapLimit(areas[0]));
      ReleaseSame(UnmapPages(vm, space, AreaFirst(areas[0]), UnmapLimit(areas[0])), space, areas[1..]);
    }
  }

  // The child is gone: of its pages nothing is left.
  lemma ExitKept(vm0: Vm, s: Sys, l: Layout, parent: nat, child: nat)
    requires Quietly(vm0, s, l, parent, child) && Enabled(s, l, Exit)
    ensures var t := StepExit(s, l);
      && Inv(t, l) && Tidy(t) && Kept(vm0, t.vm, child)
      && (forall p: Page {:trigger p in t.vm.pages} :: p in t.vm.pages ==> p.space != child)
  {
    hide WellFormed, Counted, Owned, TasksOk, AliasesOk, KernelOk, TidyTask, AllExact, KeepsLost, Undisturbed, ReleaseAreas, InArea;
    ActiveInUse(s, l);
    ExitInv(s, l);
    ExitTidy(s, l);
    var t := s.tasks[s.active];
    ReleaseLost(s.vm, child, t.areas);
    ReleaseIsolated(s.vm, s.parents, child, t.areas);
    ReleaseSame(s.vm, child, t.areas);
    var v := ReleaseAreas(s.vm, child, t.areas);
    assert Apart(s.vm, v, child);
    ApartKept(s.vm, v, child);
    KeptTransitive(vm0, s.vm, v, child);
    Deserted(StepExit(s, l), child);
  }

  lemma Deserted(s: Sys, child: nat)
    requires Inhabited(s.vm, s.tasks) && child in s.tasks && s.tasks[child].areas == [] && child != KERNEL
    ensures forall p: Page {:trigger p in s.vm.pages} :: p in s.vm.pages ==> p.space != child
  {
  }

  // From the state before the new space to the state after the exit.
  ghost predicate Bracket(vm: Vm, v: Vm, t: Vm, alias: nat, child: nat) {
    && WellFormed(vm) && WellFormed(t) && AllExact(vm) && AllExact(t) && child != KERNEL
    && v.base == vm.base && |v.alloc.refs| == |vm.alloc.refs| && KeepsLost(vm, v) && TablesKept(vm, v)
    && Page(KERNEL, alias) in v.pages && IsTable(v, v.pages[Page(KERNEL, alias)].frame)
    && v.pages == vm.pages[Page(KERNEL, alias) := v.pages[Page(KERNEL, alias)]]
    && (Page(KERNEL, alias) in vm.pages ==> v.pages == vm.pages)
    && Kept(v, t, child)
    && (forall p: Page {:trigger p in vm.pages} :: p in vm.pages ==> p.space != child)
    && (forall p: Page {:trigger p in t.pages} :: p in t.pages ==> p.space != child)
  }

  // Every page there was is there, and the only other one is the new table's alias.
  lemma BracketPages(vm: Vm, v: Vm, t: Vm, alias: nat, child: nat)
    requires Bracket(vm, v, t, alias, child)
    ensures forall p: Page {:trigger p in t.pages} {:trigger p in vm.pages} {:trigger t.pages[p]} ::
      && (p in vm.pages ==> p in t.pages && t.pages[p] == vm.pages[p])
      && (p in t.pages && p !in vm.pages ==> IsTable(t, t.pages[p].frame))
  {
    hide WellFormed, AllExact, KeepsLost;
    forall p: Page
      ensures p in vm.pages ==> p in t.pages && t.pages[p] == vm.pages[p]
      ensures p in t.pages && p !in vm.pages ==> IsTable(t, t.pages[p].frame)
    {
      var a := Page(KERNEL, alias);
      assert p in vm.pages ==> p in v.pages && v.pages[p] == vm.pages[p];
      if p in t.pages && p !in vm.pages {
        assert p in v.pages && p == a;
        var x :| x in v.tables && v.tables[x] == v.pages[a].frame;
        assert x in t.tables && t.tables[x] == v.tables[x];
      }
    }
  }

  // What was a table or held still is.
  lemma BracketUses(vm: Vm, v: Vm, t: Vm, alias: nat, child: nat, f: nat)
    requires Bracket(vm, v, t, alias, child)
    ensures IsTable(vm, f) ==> IsTable(t, f)
    ensures Held(vm, f) ==> Held(t, f)
    ensures Held(t, f) && !IsTable(t, f) ==> Held(vm, f)
  {
    hide WellFormed, AllExact, KeepsLost;
    BracketPages(vm, v, t, alias, child);
    if IsTable(vm, f) {
      var x :| x in vm.tables && vm.tables[x] == f;
      assert x in v.tables && x in t.tables && t.tables[x] == f;
    }
    if Held(vm, f) {
      var p :| p in vm.pages && vm.pages[p].frame == f;
      assert p in t.pages;
    }
    if Held(t, f) && !IsTable(t, f) {
      var p :| p in t.pages && t.pages[p].frame == f;
      assert p in vm.pages;
    }
  }

  lemma NotFree(vm: Vm, b: nat)
    requires WellFormed(vm)
    ensures IsTable(vm, vm.base + b) || Held(vm, vm.base + b) ==> b !in vm.alloc.free
  {
    assert FreeFrame(vm, vm.base + b) <==> b in vm.alloc.free;
    if Held(vm, vm.base + b) {
      var p :| p in vm.pages && vm.pages[p].frame == vm.base + b;
      PageFrame(vm, p);
    }
  }

  lemma FreeInPool(vm: Vm, b: nat)
    requires WellFormed(vm)
    ensures b in vm.alloc.free ==> b < |vm.alloc.refs|
  {
  }

  // As a set, the free list is what it was without the frames that are tables now.
  lemma BracketFree(vm: Vm, v: Vm, t: Vm, alias: nat, child: nat, b: nat)
    requires Bracket(vm, v, t, alias, child)
    ensures b in t.alloc.free <==> b in vm.alloc.free && !IsTable(t, vm.base + b)
  {
    BracketShape(vm, v, t, alias, child);
    BracketUses(vm, v, t, alias, child, vm.base + b);
    BracketLost(vm, v, t, alias, child, b);
    hide WellFormed, AllExact, KeepsLost, IsTable, Held, TablesKept, Kept;
    NotFree(vm, b);
    NotFree(t, b);
    FreeInPool(vm, b);
    FreeInPool(t, b);
  }

  lemma BracketLost(vm: Vm, v: Vm, t: Vm, alias: nat, child: nat, b: nat)
    requires Bracket(vm, v, t, alias, child)
    ensures Lost(t, b) <==> Lost(vm, b)
  {
    hide WellFormed, AllExact, TablesKept;
    assert Lost(v, b) <==> Lost(vm, b);
  }

  lemma BracketCounts(vm: Vm, v: Vm, t: Vm, alias: nat, child: nat, p: Page)
    requires Bracket(vm, v, t, alias, child) && p in vm.pages && p.space != KERNEL
    ensures p in t.pages && t.pages[p] == vm.pages[p]
    ensures var f := vm.pages[p].frame;
      && vm.base < f < vm.base + |vm.alloc.refs|
      && RefCount(t, f) == RefCount(vm, f)
  {
    hide AllExact, KeepsLost, PoolOk;
    BracketPages(vm, v, t, alias, child);
    var f := vm.pages[p].frame;
    PageFrame(vm, p);
    UserMappable(t, p);
    assert Holders(t.pages, f) == Holders(vm.pages, f) by {
      forall q | q in Holders(t.pages, f)
        ensures q in Holders(vm.pages, f)
      {
        assert q !in vm.pages ==> IsTable(t, f);
      }
    }
    assert p in Holders(vm.pages, f);
    ExactAt(vm, f);
    ExactAt(t, f);
  }

  lemma ExactAt(vm: Vm, f: nat)
    requires AllExact(vm) && vm.base <= f < vm.base + |vm.alloc.refs| && Holders(vm.pages, f) != {}
    ensures RefCount(vm, f) == |Holders(vm.pages, f)|
  {
  }

  lemma RunBracket(s: Sys, l: Layout, slot: nat, during: seq<Event>, t: Sys) returns (vac: Vm, v: Vm)
    requires Inv(s, l) && Tidy(s) && RunsTo(s, l, [Fork(slot)] + during + [Exit], t)
    requires forall i :: 0 <= i < |during| ==> AtWork(during[i])
    ensures vac.pages == s.vm.pages && vac.alloc == s.vm.alloc && vac.base == s.vm.base
    ensures Bracket(vac, v, t.vm, l.Alias(slot), s.nextPid)
  {
    hide WellFormed, Counted, Owned, AliasesOk, KernelOk, AllExact, NewSpace, StepFork, AtWork, Kept, KeepsLost, Adoptable, AddSpace;
    hide Step, Borrows, TidyTask, InArea;
    var all := [Fork(slot)] + during + [Exit];
    assert all[0] == Fork(slot) && all[1..] == during + [Exit];
    StepInv(s, l, Fork(slot));
    StepIsFork(s, l, slot);
    ForkStart(s, l, slot);
    vac, v := Vacated(s, slot), NewSpace(s, l, slot).value;
    var m := WorkRun(v, StepFork(s, l, slot).value, l, s.active, s.nextPid, during, t);
    ExitKept(v, m, l, s.active, s.nextPid);
    SpaceForSlot(s, l, slot);
    VacatedExact(s, l, slot);
    NewSpaceIs(s, l, slot);
    AddSpaceKept(vac, l.Alias(slot), s.nextPid);
    TidyExact(t);
    InvWellFormed(t, l);
  }

  lemma StepIsFork(s: Sys, l: Layout, slot: nat)
    requires Inv(s, l) && Enabled(s, l, Fork(slot))
    ensures Step(s, l, Fork(slot)) == StepFork(s, l, slot)
  {
  }

  lemma NewSpaceIs(s: Sys, l: Layout, slot: nat)
    requires Inv(s, l) && SlotFree(s, l, slot)
    ensures WellFormed(Vacated(s, slot)) && Adoptable(Vacated(s, slot), l.Alias(slot), s.nextPid)
    ensures NewSpace(s, l, slot) == AddSpace(Vacated(s, slot), l.Alias(slot), s.nextPid)
  {
    SpaceForSlot(s, l, slot);
  }

  lemma TidyExact(s: Sys)
    requires Tidy(s)
    ensures AllExact(s.vm)
  {
  }

  lemma InvWellFormed(s: Sys, l: Layout)
    requires Inv(s, l)
    ensures WellFormed(s.vm)
  {
  }

  // The theorem.  Page entries of everybody else are as they were; so are the counts of
  // their frames; and the free list is, as a set, the old one minus today's tables.
  lemma ForkExitConserves(s: Sys, l: Layout, slot: nat, during: seq<Event>, t: Sys)
    requires Inv(s, l) && Tidy(s) && RunsTo(s, l, [Fork(slot)] + during + [Exit], t)
    requires forall i :: 0 <= i < |during| ==> AtWork(during[i])
    ensures t.vm.base == s.vm.base && |t.vm.alloc.refs| == |s.vm.alloc.refs|
    ensures forall p {:trigger s.vm.pages[p]} :: p in s.vm.pages && p.space != KERNEL ==>
      && p in t.vm.pages && t.vm.pages[p] == s.vm.pages[p]
      && var f := s.vm.pages[p].frame;
      && s.vm.base < f < s.vm.base + |s.vm.alloc.refs|
      && RefCount(t.vm, f) == RefCount(s.vm, f)
    ensures forall b: nat {:trigger b in t.vm.alloc.free} ::
      b in t.vm.alloc.free <==> b in s.vm.alloc.free && !IsTable(t.vm, s.vm.base + b)
  {
    hide Inv, Tidy, RunsTo, AtWork, Bracket, IsTable;
    var vac, v := RunBracket(s, l, slot, during, t);
    BracketShape(vac, v, t.vm, l.Alias(slot), s.nextPid);
    forall p {:trigger s.vm.pages[p]} | p in s.vm.pages && p.space != KERNEL
      ensures p in t.vm.pages && t.vm.pages[p] == s.vm.pages[p]
      ensures var f := s.vm.pages[p].frame;
        && s.vm.base < f < s.vm.base + |s.vm.alloc.refs|
        && RefCount(t.vm, f) == RefCount(s.vm, f)
    {
      BracketCounts(vac, v, t.vm, l.Alias(slot), s.nextPid, p);
    }
    forall b: nat {:trigger b in t.vm.alloc.free}
      ensures b in t.vm.alloc.free <==> b in s.vm.alloc.free && !IsTable(t.vm, s.vm.base + b)
    {
      BracketFree(vac, v, t.vm, l.Alias(slot), s.nextPid, b);
    }
  }

  lemma BracketShape(vm: Vm, v: Vm, t: Vm, alias: nat, child: nat)
    requires Bracket(vm, v, t, alias, child)
    ensures t.base == vm.base && |t.alloc.refs| == |vm.alloc.refs|
  {
  }
}
