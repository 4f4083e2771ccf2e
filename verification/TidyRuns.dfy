/**
  Runs in which the areas of a process never share a page and never end on a page
  boundary: counts stay exact, and a child that comes and goes leaves no trace in them.
 */
module TidyRuns {
  import opened Addressing
  import opened Exactness
  import opened Isolation
  import opened Memory
  import opened Runs
  import opened Spaces
  import opened VirtualMemory

  predicate TidyTask(t: Task) {
    && PageDisjoint(t.areas)
    && (forall i {:trigger t.areas[i]} :: 0 <= i < |t.areas| ==> t.areas[i].end % 4096 != 0 && t.areas[i].end < t.heapTop)
  }

  ghost predicate Tidy(s: Sys) {
    && AllExact(s.vm)
    && (forall p {:trigger s.tasks[p]} :: p in s.tasks ==> TidyTask(s.tasks[p]) && (!s.tasks[p].live ==> s.tasks[p].areas == []))
    && Inhabited(s.vm, s.tasks)
  }

  // Every user page belongs to an area of its process.
  ghost predicate Inhabited(vm: Vm, tasks: map<nat, Task>) {
    forall q: Page {:trigger q in vm.pages} :: q in vm.pages && q.space != KERNEL ==>
      q.space in tasks && InArea(tasks[q.space].areas, q.number)
  }

  // The length of a mapping decides where its area ends: `length - 1` bytes after a page
  // boundary.
  predicate TidyEvent(e: Event) {
    match e
    case Mmap(length) => length % 4096 != 1
    case Exec(slot, areas, heapTop, image) =>
      && TidyTask(Task(slot, areas, heapTop, true))
      && (forall i {:trigger image[i]} :: 0 <= i < |image| ==> InArea(areas, image[i].0))
    case _ => true
  }

  // ---------------------------------------------------------------- areas

  lemma CoveredInArea(areas: seq<Vma>, a: nat)
    requires Covered(areas, a) && Bounded(areas)
    ensures InArea(areas, PageOf(a))
  {
    hide PageOf;
    var i :| 0 <= i < |areas| && areas[i].Holds(a);
    LowPrivate(a);
    assert AreaFirst(areas[i]) <= a / 4096 < AreaLimit(areas[i]);
  }

  // Heap mappings never share a page with any area there was.
  lemma MmapTidy(t: Task, length: nat)
    requires TidyTask(t) && t.heapTop > 0 && t.heapTop % 4096 == 0 && length % 4096 != 1
    ensures TidyTask(AfterMmap(t, length))
    ensures forall n {:trigger InArea(t.areas, n)} :: InArea(t.areas, n) ==> InArea(AfterMmap(t, length).areas, n)
  {
    var v, u := Mapping(t, length), AfterMmap(t, length);
    assert v.end % 4096 != 0;
    forall i | 0 <= i < |t.areas|
      ensures AreaLimit(t.areas[i]) <= AreaFirst(v) || AreaLimit(t.areas[i]) == 0
    {
      assert t.areas[i].end < t.heapTop;
    }
    forall i, j {:trigger u.areas[i], u.areas[j]} | 0 <= i < j < |u.areas|
      ensures AreaLimit(u.areas[i]) <= AreaFirst(u.areas[j]) || AreaLimit(u.areas[j]) <= AreaFirst(u.areas[i])
        || AreaLimit(u.areas[i]) == 0 || AreaLimit(u.areas[j]) == 0
    {
      if j < |t.areas| {
        assert u.areas[i] == t.areas[i] && u.areas[j] == t.areas[j];
      } else {
        assert u.areas[i] == t.areas[i] && u.areas[j] == v;
      }
    }
    forall n: nat | InArea(t.areas, n)
      ensures InArea(u.areas, n)
    {
      var i :| 0 <= i < |t.areas| && AreaFirst(t.areas[i]) <= n < AreaLimit(t.areas[i]);
      assert u.areas[i] == t.areas[i];
    }
  }

  lemma WithoutTidy(t: Task, i: nat)
    requires TidyTask(t) && i < |t.areas|
    ensures TidyTask(t.(areas := Without(t.areas, i)))
  {
    var w := Without(t.areas, i);
    assert forall j {:trigger w[j]} :: 0 <= j < |w| ==> w[j] == t.areas[if j < i then j else j + 1];
  }

  lemma RoundedEnd(v: Vma)
    requires v.end % 4096 != 0
    ensures UnmapLimit(v) >= AreaLimit(v)
  {
  }

  // A page that survives an unmapping lies in another area.
  lemma SurvivorInArea(t: Task, i: nat, n: nat)
    requires TidyTask(t) && i < |t.areas| && InArea(t.areas, n)
    requires !(AreaFirst(t.areas[i]) <= n < UnmapLimit(t.areas[i]))
    ensures InArea(Without(t.areas, i), n)
  {
    var j :| 0 <= j < |t.areas| && AreaFirst(t.areas[j]) <= n < AreaLimit(t.areas[j]);
    assert t.areas[i].end % 4096 != 0;
    RoundedEnd(t.areas[i]);
    hide PageDisjoint, UnmapLimit;
    var w := Without(t.areas, i);
    assert w[if j < i then j else j - 1] == t.areas[j];
  }

  lemma AreaReleased(areas: seq<Vma>, n: nat)
    requires forall i {:trigger areas[i]} :: 0 <= i < |areas| ==> areas[i].end % 4096 != 0
    requires InArea(areas, n)
    ensures InRelease(areas, n)
  {
    var i :| 0 <= i < |areas| && AreaFirst(areas[i]) <= n < AreaLimit(areas[i]);
    assert areas[i].end % 4096 != 0;
  }

  // ---------------------------------------------------------------- accesses

  lemma AccessExact(vm: Vm, space: nat, areas: seq<Vma>, a: nat, write: bool)
    requires WellFormed(vm) && InUse(vm, space) && Private(a) && Bounded(areas) && AllExact(vm)
    ensures Access(vm, space, areas, a, write).Some? ==>
      var v := Access(vm, space, areas, a, write).value;
      && AllExact(v)
      && (forall p: Page {:trigger p in v.pages} :: p in v.pages ==>
            p in vm.pages || (p == UserPage(space, a) && InArea(areas, p.number)))
  {
    hide WellFormed, AllExact, MapPage, Reachable, Mappable, FreeFrame, PageIn, ZeroPrefix, Quiet, Split, Covered, InArea, PageOf, Bounded, Private;
    PrivateReachable(vm, space, a);
    var p := UserPage(space, a);
    var r := Access(vm, space, areas, a, write);
    if r.Some? && !Permitted(vm, space, a, write) {
      CoveredInArea(areas, a);
      if p in vm.pages {
        SplitExact(vm, p);
        SplitEffect(vm, p);
      } else {
        MapPageEffect(vm, space, PageOf(a));
        FreshExact(vm, r.value, p, r.value.pages[p]);
      }
    }
  }

  // ------------------------------------------------------------------- steps

  lemma LoadTidy(s: Sys, l: Layout, a: nat)
    requires Inv(s, l) && Tidy(s) && Enabled(s, l, Load(a))
    ensures StepLoad(s, l, a).Some? ==> Tidy(StepLoad(s, l, a).value)
  {
    hide WellFormed, Counted, Owned, AllExact, Access, TasksOk, AliasesOk, KernelOk, TidyTask, InArea;
    ActiveInUse(s, l);
    AccessExact(s.vm, s.active, s.tasks[s.active].areas, a, false);
  }

  lemma StoreTidy(s: Sys, l: Layout, a: nat, b: Byte)
    requires Inv(s, l) && Tidy(s) && Enabled(s, l, Store(a, b))
    ensures StepStore(s, l, a, b).Some? ==> Tidy(StepStore(s, l, a, b).value)
  {
    hide WellFormed, Counted, Owned, AllExact, Access, TasksOk, AliasesOk, KernelOk, TidyTask, InArea;
    ActiveInUse(s, l);
    var areas := s.tasks[s.active].areas;
    AccessExact(s.vm, s.active, areas, a, true);
    AccessPermits(s.vm, s.active, areas, a, true);
    var r := Access(s.vm, s.active, areas, a, true);
    if r.Some? {
      SameExact(r.value, StoreByte(r.value, s.active, a, b));
    }
  }

  lemma MunmapTidy(s: Sys, l: Layout, a: nat, length: nat)
    requires Inv(s, l) && Tidy(s) && Enabled(s, l, Munmap(a, length))
    ensures StepMunmap(s, l, a, length).Some? ==> Tidy(StepMunmap(s, l, a, length).value)
  {
    hide WellFormed, Counted, Owned, AllExact, UnmapPages, TasksOk, AliasesOk, KernelOk, InArea, TidyTask;
    ActiveInUse(s, l);
    var t := s.tasks[s.active];
    var i := FirstCover(t.areas, a, a + length);
    if i < |t.areas| {
      var x, y := AreaFirst(t.areas[i]), UnmapLimit(t.areas[i]);
      UnmapPagesExact(s.vm, s.active, x, y);
      WithoutTidy(t, i);
      var v, u := UnmapPages(s.vm, s.active, x, y), t.(areas := Without(t.areas, i));
      forall q: Page {:trigger q in v.pages} | q in v.pages && q.space != KERNEL
        ensures q.space in s.tasks && InArea(s.tasks[s.active := u][q.space].areas, q.number)
      {
        assert q in s.vm.pages;
        if q.space == s.active {
          SurvivorInArea(t, i, q.number);
        }
      }
    }
  }

  lemma ExitTidy(s: Sys, l: Layout)
    requires Inv(s, l) && Tidy(s) && Enabled(s, l, Exit)
    ensures Tidy(StepExit(s, l))
  {
    hide WellFormed, Counted, Owned, AllExact, ReleaseAreas, TasksOk, AliasesOk, KernelOk, InArea, InRelease;
    ActiveInUse(s, l);
    var t := s.tasks[s.active];
    ReleaseExact(s.vm, s.active, t.areas);
    var v := ReleaseAreas(s.vm, s.active, t.areas);
    forall q: Page {:trigger q in v.pages} | q in v.pages && q.space != KERNEL
      ensures q.space in s.tasks && q.space != s.active && InArea(s.tasks[q.space].areas, q.number)
    {
      assert q in s.vm.pages;
      if q.space == s.active {
        AreaReleased(t.areas, q.number);
      }
    }
  }

  // A space of a process that is gone has no pages left to drop.
  lemma VacatedExact(s: Sys, l: Layout, slot: nat)
    requires Inv(s, l) && Tidy(s) && SlotFree(s, l, slot)
    ensures AllExact(Vacated(s, slot)) && Vacated(s, slot).pages == s.vm.pages
    ensures Vacated(s, slot).alloc == s.vm.alloc && Vacated(s, slot).base == s.vm.base
  {
    hide WellFormed, Counted, Owned, AllExact, AliasesOk, KernelOk, TidyTask;
    var v := Vacated(s, slot);
    if slot in s.owner {
      var d := s.owner[slot];
      assert d in s.tasks && s.tasks[d].areas == [];
      assert !exists n: nat :: InArea(s.tasks[d].areas, n);
      assert forall q: Page {:trigger q in s.vm.pages} :: q in s.vm.pages ==> q.space != d;
      assert v.pages == s.vm.pages;
    }
    SameExact(s.vm, v);
  }

  lemma AddSpaceExact(vm: Vm, alias: nat, pid: nat)
    requires WellFormed(vm) && AllExact(vm) && Adoptable(vm, alias, pid)
    ensures AddSpace(vm, alias, pid).Some? ==> AllExact(AddSpace(vm, alias, pid).value)
  {
    hide WellFormed, AllExact, MapPage, Reachable, Mappable, FreeFrame, KernelOnly, PageIn, ZeroPrefix, Quiet;
    MappedAlias(vm, alias, pid);
    var r := MapPage(vm, KERNEL, alias);
    var p := Page(KERNEL, alias);
    if r.Some? {
      var v := r.value;
      if p in vm.pages {
        MapPagePresent(vm, KERNEL, alias);
        QuietExact(vm, v);
      } else {
        MapPageEffect(vm, KERNEL, alias);
        FreshExact(vm, v, p, v.pages[p]);
      }
      SameExact(v, AddSpace(vm, alias, pid).value);
    }
  }

  // The new address space: exact, empty of user pages, everybody else's pages there.
  lemma NewSpaceExact(s: Sys, l: Layout, slot: nat)
    requires Inv(s, l) && Tidy(s) && SlotFree(s, l, slot) && s.active < s.nextPid
    ensures NewSpace(s, l, slot).Some? ==>
      var v := NewSpace(s, l, slot).value;
      && AllExact(v)
      && (forall q: Page {:trigger q in v.pages} :: q.space != KERNEL ==>
            (q in v.pages <==> q in s.vm.pages) && (q in v.pages ==> v.pages[q] == s.vm.pages[q]))
      && (forall q: Page {:trigger q in v.pages} :: q in v.pages && q.space != KERNEL ==> q.space in s.tasks)
  {
    hide WellFormed, Counted, Owned, AllExact, AliasesOk, KernelOk, TidyTask, Adoptable, Vacated, AddSpace, InArea;
    SpaceForSlot(s, l, slot);
    VacatedExact(s, l, slot);
    var vac := Vacated(s, slot);
    AddSpaceExact(vac, l.Alias(slot), s.nextPid);
    AddSpaceTops(vac, l.Alias(slot), s.nextPid);
    var r := AddSpace(vac, l.Alias(slot), s.nextPid);
    if r.Some? {
      var p := Page(KERNEL, l.Alias(slot));
      forall q: Page {:trigger q in r.value.pages} | q.space != KERNEL
        ensures q in r.value.pages <==> q in s.vm.pages
        ensures q in r.value.pages ==> r.value.pages[q] == s.vm.pages[q]
      {
        assert q in r.value.pages <==> q in r.value.pages - {p};
        assert q in vac.pages <==> q in vac.pages - {p};
        assert q in vac.pages ==> (vac.pages - {p})[q] == vac.pages[q];
        assert q in r.value.pages ==> (r.value.pages - {p})[q] == r.value.pages[q];
      }
    }
  }

  lemma ForkTidy(s: Sys, l: Layout, slot: nat)
    requires Inv(s, l) && Tidy(s) && Enabled(s, l, Fork(slot))
    ensures StepFork(s, l, slot).Some? ==> Tidy(StepFork(s, l, slot).value)
  {
    hide WellFormed, Counted, Owned, AllExact, AliasesOk, KernelOk, NewSpace, CopyAreas, InArea, Bounded, InUse, Undisturbed;
    ActiveInUse(s, l);
    InUseUser(s.vm, s.active);
    NewSpaceKeeps(s, l, slot);
    NewSpaceExact(s, l, slot);
    var n := NewSpace(s, l, slot);
    if n.Some? {
      var v, t := n.value, s.tasks[s.active];
      assert forall m: nat {:trigger Page(s.nextPid, m)} :: Page(s.nextPid, m) !in v.pages;
      CopyAreasExact(v, s.active, s.nextPid, t.areas);
      CopyAreasIsolated(v, s.parents[s.nextPid := s.active], s.active, s.nextPid, t.areas);
      var r := CopyAreas(v, s.active, s.nextPid, t.areas);
      if r.Some? {
        var u := Started(s, r.value, Task(slot, t.areas, t.heapTop, true));
        forall q: Page {:trigger q in u.vm.pages} | q in u.vm.pages && q.space != KERNEL
          ensures q.space in u.tasks && InArea(u.tasks[q.space].areas, q.number)
        {
          if q.space == s.nextPid {
            CopyAreasFidelity(v, s.active, s.nextPid, t.areas, q.number);
          } else {
            assert Undisturbed(v, r.value, q.space);
            UndisturbedPage(v, r.value, q);
          }
        }
      }
    }
  }

  lemma UndisturbedPage(vm: Vm, v: Vm, q: Page)
    requires Undisturbed(vm, v, q.space)
    ensures q in v.pages <==> q in vm.pages
    ensures q in v.pages ==> v.pages[q] == vm.pages[q]
  {
  }

  lemma {:induction false} LoadImageExact(vm: Vm, pid: nat, image: seq<(nat, Frame)>)
    requires WellFormed(vm) && InUse(vm, pid) && ImageOk(image) && AllExact(vm)
    ensures LoadImage(vm, pid, image).Some? ==>
      var v := LoadImage(vm, pid, image).value;
      && AllExact(v)
      && (forall q: Page {:trigger q in v.pages} :: q in v.pages ==>
            q in vm.pages || (q.space == pid && exists i :: 0 <= i < |image| && image[i].0 == q.number))
    decreases |image|
  {
    hide WellFormed, AllExact, MapPage, Reachable, Mappable, FreeFrame, PageIn, Quiet, ZeroPrefix;
    if image != [] {
      var (n, fr) := image[0];
      if Page(pid, n) in vm.pages {
        LoadImageExact(vm, pid, image[1..]);
      } else {
        UserReachable(vm, pid, n);
        MapPageEffect(vm, pid, n);
        var r := MapPage(vm, pid, n);
        if r.Some? {
          var e := r.value.pages[Page(pid, n)];
          FreshExact(vm, r.value, Page(pid, n), e);
          SetDataWellFormed(r.value, e.frame, fr);
          SameExact(r.value, SetData(r.value, e.frame, fr));
          LoadImageExact(SetData(r.value, e.frame, fr), pid, image[1..]);
        }
      }
      assert forall i :: 0 <= i < |image[1..]| ==> image[1..][i] == image[i + 1];
    }
  }

  lemma ExecTidy(s: Sys, l: Layout, slot: nat, areas: seq<Vma>, heapTop: nat, image: seq<(nat, Frame)>)
    requires Inv(s, l) && Tidy(s) && Enabled(s, l, Exec(slot, areas, heapTop, image))
    requires TidyEvent(Exec(slot, areas, heapTop, image))
    ensures StepExec(s, l, slot, areas, heapTop, image).Some? ==> Tidy(StepExec(s, l, slot, areas, heapTop, image).value)
  {
    hide WellFormed, Counted, Owned, AllExact, AliasesOk, KernelOk, NewSpace, LoadImage, InArea, InUse, ImageOk, Undisturbed;
    NewSpaceKeeps(s, l, slot);
    NewSpaceExact(s, l, slot);
    var n := NewSpace(s, l, slot);
    if n.Some? {
      LoadImageExact(n.value, s.nextPid, image);
    }
  }

  lemma MmapEventTidy(s: Sys, l: Layout, length: nat)
    requires Inv(s, l) && Tidy(s) && Enabled(s, l, Mmap(length)) && length % 4096 != 1
    ensures Tidy(s.(tasks := s.tasks[s.active := AfterMmap(s.tasks[s.active], length)]))
  {
    hide WellFormed, Counted, Owned, AllExact, AliasesOk, KernelOk, InArea, TidyTask;
    MmapTidy(s.tasks[s.active], length);
  }

  lemma StepTidy(s: Sys, l: Layout, e: Event)
    requires Inv(s, l) && Tidy(s) && Enabled(s, l, e) && TidyEvent(e)
    ensures Step(s, l, e).Some? ==> Tidy(Step(s, l, e).value)
  {
    hide Inv, StepFork, StepExec, StepLoad, StepStore, StepMunmap, StepExit, AllExact, TidyTask;
    match e
    case Fork(slot) => ForkTidy(s, l, slot);
    case Exec(slot, areas, heapTop, image) => ExecTidy(s, l, slot, areas, heapTop, image);
    case Load(a) => LoadTidy(s, l, a);
    case Store(a, b) => StoreTidy(s, l, a, b);
    case Mmap(length) => MmapEventTidy(s, l, length);
    case Munmap(a, length) => MunmapTidy(s, l, a, length);
    case Exit => ExitTidy(s, l);
    case Switch(pid) =>
    case KernelMap(n) => KernelMapTidy(s, l, n);
    case KernelStore(a, b) => KernelStoreTidy(s, l, a, b);
  }

  lemma KernelMapTidy(s: Sys, l: Layout, n: nat)
    requires Inv(s, l) && Tidy(s) && Enabled(s, l, KernelMap(n))
    ensures StepKernelMap(s, l, n).Some? ==> Tidy(StepKernelMap(s, l, n).value)
  {
    hide WellFormed, Counted, Owned, AllExact, MapPage, Reachable, Mappable, FreeFrame, PageIn, ZeroPrefix, Quiet, TasksOk;
    hide AliasesOk, KernelOk, TidyTask, InArea, Layout.IsAlias;
    AliasReachable(s.vm, n);
    MapPageEffect(s.vm, KERNEL, n);
    var r, p := MapPage(s.vm, KERNEL, n), Page(KERNEL, n);
    if r.Some? {
      FreshExact(s.vm, r.value, p, r.value.pages[p]);
    }
  }

  lemma KernelStoreTidy(s: Sys, l: Layout, a: nat, b: Byte)
    requires Inv(s, l) && Tidy(s) && Enabled(s, l, KernelStore(a, b))
    ensures Tidy(s.(vm := KernelStored(s.vm, a, b)))
  {
    FramesInData(s.vm);
    hide Inv, AllExact, TidyTask, InArea, PageOf, Upper, Layout.IsAlias;
    SameExact(s.vm, KernelStored(s.vm, a, b));
  }

  // In every state a tidy run reaches, the count of a mapped frame is the number of page
  // entries that hold it.
  lemma {:induction false} TidyRunExact(s: Sys, l: Layout, events: seq<Event>, t: Sys)
    requires Inv(s, l) && Tidy(s) && RunsTo(s, l, events, t)
    requires forall i :: 0 <= i < |events| ==> TidyEvent(events[i])
    ensures Inv(t, l) && Tidy(t)
    ensures forall p {:trigger t.vm.pages[p]} :: p in t.vm.pages ==>
      var f := t.vm.pages[p].frame;
      && t.vm.base <= f < t.vm.base + |t.vm.alloc.refs|
      && RefCount(t.vm, f) == |Holders(t.vm.pages, f)|
    decreases |events|
  {
    hide Inv, Tidy, Step, Enabled, TidyEvent, RefCount;
    if events == [] {
      TidyCounts(t, l);
    } else {
      StepInv(s, l, events[0]);
      StepTidy(s, l, events[0]);
      TidyRunExact(Step(s, l, events[0]).value, l, events[1..], t);
    }
  }

  lemma TidyCounts(s: Sys, l: Layout)
    requires Inv(s, l) && Tidy(s)
    ensures forall p {:trigger s.vm.pages[p]} :: p in s.vm.pages ==>
      var f := s.vm.pages[p].frame;
      && s.vm.base <= f < s.vm.base + |s.vm.alloc.refs|
      && RefCount(s.vm, f) == |Holders(s.vm.pages, f)|
  {
    hide WellFormed, Counted, Owned, AliasesOk, KernelOk, TasksOk, TidyTask, Inhabited;
    forall p {:trigger s.vm.pages[p]} | p in s.vm.pages
      ensures var f := s.vm.pages[p].frame;
        && s.vm.base <= f < s.vm.base + |s.vm.alloc.refs|
        && RefCount(s.vm, f) == |Holders(s.vm.pages, f)|
    {
      PageFrame(s.vm, p);
      assert p in Holders(s.vm.pages, s.vm.pages[p].frame);
    }
  }
}
