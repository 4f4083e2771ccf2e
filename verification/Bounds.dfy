/**
  What the addresses and lengths in requests come to, in numbers: where a mapping starts and
  ends, which accesses it serves, and what an unmapping or a fork reaches.
 */
module Bounds {
  import opened Addressing
  import opened Births
  import opened Exactness
  import opened Isolation
  import opened Memory
  import opened Recall
  import opened Runs
  import opened Spaces
  import opened VirtualMemory
  import opened Wrappers

  // No area of the list has the address.
  predicate Outside(areas: seq<Vma>, a: nat) {
    forall i {:trigger areas[i]} :: 0 <= i < |areas| ==> a < areas[i].start || areas[i].end < a
  }

  // -------------------------------------------------------------------- a mapping

  lemma PageSteps(h: nat, n: nat)
    requires h > 0 && h % 4096 == 0
    ensures ((h + n - 1) / 4096 + 1) * 4096 == h + (n + 4095) / 4096 * 4096
  {
    var k := h / 4096;
    assert h == 4096 * k;
    assert (4096 * k + n - 1) / 4096 + 1 == (4096 * k + n + 4095) / 4096;
    assert (4096 * k + (n + 4095)) / 4096 == k + (n + 4095) / 4096;
  }

  // A mapping starts at the heap top, has exactly its length, and puts the heap top on the
  // next page boundary.
  lemma MmapIs(s: Sys, l: Layout, n: nat)
    requires Inv(s, l) && Enabled(s, l, Mmap(n))
    ensures Step(s, l, Mmap(n)).Some?
    ensures var p, u := s.active, Step(s, l, Mmap(n)).value;
            var t := s.tasks[p];
            var start, top := t.heapTop, t.heapTop + (n + 4095) / 4096 * 4096;
            && start > 0 && start % 4096 == 0 && top % 4096 == 0 && start + n <= top < start + n + 4096
            && u == s.(tasks := s.tasks[p := Task(t.slot, t.areas + [Vma(start, start + n - 1)], top, t.live)])
  {
    HeapAligned(s, l);
    PageSteps(s.tasks[s.active].heapTop, n);
    hide Inv, StepFork, StepExec, StepLoad, StepStore, StepMunmap, StepExit, StepKernelMap, KernelStored;
  }

  lemma ActiveTask(s: Sys, l: Layout, n: nat)
    requires Inv(s, l) && Enabled(s, l, Mmap(n))
    ensures s.active in s.tasks
  {
    hide Inv;
  }

  lemma HeapAligned(s: Sys, l: Layout)
    requires Inv(s, l) && Running(s)
    ensures s.tasks[s.active].heapTop > 0 && s.tasks[s.active].heapTop % 4096 == 0
  {
    hide WellFormed, Counted, Owned, AliasesOk, KernelOk;
  }

  // ------------------------------------------------------- until the next mapping

  // The process makes no mapping in the run.
  ghost predicate NoMapping(s: Sys, l: Layout, events: seq<Event>, p: nat)
    requires Inv(s, l)
    decreases |events|
  {
    events == [] || (
      && Enabled(s, l, events[0]) && Step(s, l, events[0]).Some? && !(s.active == p && events[0].Mmap?)
      && (StepInv(s, l, events[0]); NoMapping(Step(s, l, events[0]).value, l, events[1..], p)))
  }

  // Its heap top stays, and it gets no area.
  ghost predicate Settles(s: Sys, t: Sys, p: nat) {
    && p in s.tasks && p in t.tasks && t.tasks[p].heapTop == s.tasks[p].heapTop
    && forall v {:trigger v in t.tasks[p].areas} :: v in t.tasks[p].areas ==> v in s.tasks[p].areas
  }

  lemma StepSettles(s: Sys, l: Layout, e: Event, p: nat)
    requires Inv(s, l) && Enabled(s, l, e) && Step(s, l, e).Some? && p in s.tasks && !(s.active == p && e.Mmap?)
    ensures Settles(s, Step(s, l, e).value, p)
  {
    hide Inv, Access, NewSpace, UnmapPages, ReleaseAreas, CopyAreas, LoadImage, MapPage, AreasOk, ImageOk, KernelStored;
    hide AfterMmap, StoreByte, WellFormed, Bounded, SlotFree, Private, Upper;
    if ByOwner(e) && s.active == p {
      OwnSettles(s, l, e);
    } else {
      hide Step, Enabled;
      OtherTask(s, l, e, p);
    }
  }

  lemma OwnSettles(s: Sys, l: Layout, e: Event)
    requires Inv(s, l) && Enabled(s, l, e) && Step(s, l, e).Some? && s.active in s.tasks && !e.Mmap? && ByOwner(e)
    ensures Settles(s, Step(s, l, e).value, s.active)
  {
    hide Inv, AfterMmap, StepLoad, StepStore, KernelStored, StepKernelMap, AreasOk, ImageOk, Private, Upper, WellFormed;
    hide SlotFree, StepFork, StepExec;
    match e
    case Fork(slot) => StartSettles(s, l, e);
    case Exec(slot, areas, heapTop, image) => StartSettles(s, l, e);
    case Load(a) => AccessSettles(s, l, e);
    case Store(a, b) => AccessSettles(s, l, e);
    case Munmap(a, length) => FewerAreas(s.tasks[s.active].areas, FirstCover(s.tasks[s.active].areas, a, a + length));
    case Exit =>
  }

  lemma StartSettles(s: Sys, l: Layout, e: Event)
    requires Inv(s, l) && Enabled(s, l, e) && Step(s, l, e).Some? && s.active in s.tasks && (e.Fork? || e.Exec?)
    ensures Settles(s, Step(s, l, e).value, s.active)
  {
    hide Inv, AfterMmap, StepLoad, StepStore, StepMunmap, StepExit, KernelStored, StepKernelMap, AreasOk, ImageOk, SlotFree;
    hide NewSpace, CopyAreas, LoadImage, WellFormed;
    NewPid(s, l);
  }

  lemma AccessSettles(s: Sys, l: Layout, e: Event)
    requires Inv(s, l) && Enabled(s, l, e) && Step(s, l, e).Some? && s.active in s.tasks && (e.Load? || e.Store?)
    ensures Settles(s, Step(s, l, e).value, s.active)
  {
    hide Inv, AfterMmap, StepFork, StepExec, StepMunmap, StepExit, KernelStored, StepKernelMap, Access, StoreByte, WellFormed;
    hide Private, AreasOk;
  }

  lemma NewPid(s: Sys, l: Layout)
    requires Inv(s, l)
    ensures s.nextPid !in s.tasks
  {
    hide WellFormed, Counted, Owned, AliasesOk, KernelOk;
  }

  lemma FewerAreas(areas: seq<Vma>, i: nat)
    ensures i < |areas| ==> forall v :: v in Without(areas, i) ==> v in areas
  {
  }

  lemma {:induction false} RunSettles(s: Sys, l: Layout, events: seq<Event>, t: Sys, p: nat)
    requires Inv(s, l) && RunsTo(s, l, events, t) && p in s.tasks && NoMapping(s, l, events, p)
    ensures Inv(t, l) && Settles(s, t, p)
    decreases |events|
  {
    hide Inv, Step, Enabled;
    if events != [] {
      StepInv(s, l, events[0]);
      StepSettles(s, l, events[0], p);
      RunSettles(Step(s, l, events[0]).value, l, events[1..], t, p);
    }
  }

  // The next mapping of the process, whatever happens in between, starts at the page boundary
  // behind the one before.
  lemma NextMapping(s: Sys, l: Layout, n: nat, events: seq<Event>, t: Sys, m: nat)
    requires Inv(s, l) && Enabled(s, l, Mmap(n)) && Step(s, l, Mmap(n)).Some? && Inv(Step(s, l, Mmap(n)).value, l)
    requires RunsTo(Step(s, l, Mmap(n)).value, l, events, t) && NoMapping(Step(s, l, Mmap(n)).value, l, events, s.active)
    ensures Inv(t, l)
    ensures t.active == s.active && Enabled(t, l, Mmap(m)) ==>
      && s.active in s.tasks && s.active in t.tasks && Step(t, l, Mmap(m)).Some?
      && var start := s.tasks[s.active].heapTop + (n + 4095) / 4096 * 4096;
         && t.tasks[s.active].heapTop == start
         && Step(t, l, Mmap(m)).value.tasks.Keys == t.tasks.Keys
         && Step(t, l, Mmap(m)).value.tasks[s.active].areas == t.tasks[s.active].areas + [Vma(start, start + m - 1)]
  {
    hide Inv, Step, RunsTo, NoMapping, Enabled;
    MmapIs(s, l, n);
    ActiveTask(s, l, n);
    RunSettles(Step(s, l, Mmap(n)).value, l, events, t, s.active);
    if t.active == s.active && Enabled(t, l, Mmap(m)) {
      MmapIs(t, l, m);
    }
  }

  // ------------------------------------------------------------ which accesses it serves

  // An access of the running process stops the machine exactly when the page table does not
  // permit it and no area has the address, or the frames run out.
  lemma LoadStopsIff(s: Sys, l: Layout, a: nat)
    requires Inv(s, l) && Enabled(s, l, Load(a))
    ensures s.active in s.tasks && (Step(s, l, Load(a)).None? <==>
      && UserPage(s.active, a) !in s.vm.pages
      && (Outside(s.tasks[s.active].areas, a) || |s.vm.alloc.free| < 6 + Missing(s.vm, s.active, PageOf(a))))
  {
    hide Inv, Access, Private, PageOf, AreasOk, Bounded, Missing, WellFormed, Counted, InUse;
    ActiveInUse(s, l);
    AccessFailsIff(s.vm, s.active, s.tasks[s.active].areas, a, false);
  }

  lemma StoreStopsIff(s: Sys, l: Layout, a: nat, b: Byte)
    requires Inv(s, l) && Enabled(s, l, Store(a, b))
    ensures s.active in s.tasks && (Step(s, l, Store(a, b)).None? <==>
      && !(UserPage(s.active, a) in s.vm.pages && s.vm.pages[UserPage(s.active, a)].writable)
      && (Outside(s.tasks[s.active].areas, a) || |s.vm.alloc.free| < 6 + Missing(s.vm, s.active, PageOf(a))))
  {
    hide Inv, Access, Private, PageOf, AreasOk, Bounded, Missing, WellFormed, Counted, InUse, StoreByte;
    ActiveInUse(s, l);
    AccessFailsIff(s.vm, s.active, s.tasks[s.active].areas, a, true);
  }

  // A mapping of n bytes, then anything but another mapping of the process; then its first
  // access to a page: behind the last byte of the mapping, and outside its older areas, it
  // stops the machine.
  lemma PastEndStops(s: Sys, l: Layout, n: nat, events: seq<Event>, t: Sys, a: nat, b: Byte)
    requires Inv(s, l) && Enabled(s, l, Mmap(n)) && Step(s, l, Mmap(n)).Some? && Inv(Step(s, l, Mmap(n)).value, l)
    requires RunsTo(Step(s, l, Mmap(n)).value, l, events, t) && NoMapping(Step(s, l, Mmap(n)).value, l, events, s.active)
    requires t.active == s.active && Running(t) && Private(a) && UserPage(t.active, a) !in t.vm.pages
    requires s.active in s.tasks && s.tasks[s.active].heapTop + n <= a && Outside(s.tasks[s.active].areas, a)
    ensures Inv(t, l) && Enabled(t, l, Load(a)) && Step(t, l, Load(a)).None?
    ensures Enabled(t, l, Store(a, b)) && Step(t, l, Store(a, b)).None?
  {
    hide Inv, Step, RunsTo, NoMapping, Private, PageOf;
    MmapIs(s, l, n);
    var u := Step(s, l, Mmap(n)).value;
    ActiveTask(s, l, n);
    assert u.tasks[s.active].areas == s.tasks[s.active].areas + [Vma(s.tasks[s.active].heapTop, s.tasks[s.active].heapTop + n - 1)];
    RunSettles(u, l, events, t, s.active);
    assert Settles(u, t, s.active);
    forall i {:trigger t.tasks[s.active].areas[i]} | 0 <= i < |t.tasks[s.active].areas|
      ensures a < t.tasks[s.active].areas[i].start || t.tasks[s.active].areas[i].end < a
    {
      var v := t.tasks[s.active].areas[i];
      assert v in t.tasks[s.active].areas && v in u.tasks[s.active].areas;
    }
    LoadStopsIff(t, l, a);
    StoreStopsIff(t, l, a, b);
  }

  // And at its bytes the access goes through when the frames suffice.
  lemma MappedServes(s: Sys, l: Layout, n: nat, a: nat)
    requires Inv(s, l) && Enabled(s, l, Mmap(n)) && Step(s, l, Mmap(n)).Some? && Inv(Step(s, l, Mmap(n)).value, l)
    requires s.active in s.tasks && s.tasks[s.active].heapTop <= a < s.tasks[s.active].heapTop + n && Private(a)
    ensures var u := Step(s, l, Mmap(n)).value;
            Enabled(u, l, Load(a)) && (Step(u, l, Load(a)).None? <==>
              UserPage(s.active, a) !in s.vm.pages && |s.vm.alloc.free| < 6 + Missing(s.vm, s.active, PageOf(a)))
  {
    hide Inv, Step, Private, PageOf, Missing;
    MmapIs(s, l, n);
    var u := Step(s, l, Mmap(n)).value;
    assert u.tasks[s.active].areas[|s.tasks[s.active].areas|].start <= a;
    LoadStopsIff(u, l, a);
  }

  // ------------------------------------------------------------------ an unmapping

  lemma {:induction false} UnmapPagesAre(vm: Vm, q: nat, lo: nat, hi: nat)
    requires WellFormed(vm) && Counted(vm) && q != KERNEL
    ensures forall p: Page {:trigger p in UnmapPages(vm, q, lo, hi).pages} ::
              p in UnmapPages(vm, q, lo, hi).pages <==> p in vm.pages && !(p.space == q && lo <= p.number < hi)
    decreases hi - lo
  {
    hide WellFormed, Counted, Unmap, UnmapPages;
    if lo >= hi {
      UnmapPagesEnd(vm, q, lo, hi);
    } else {
      UnmapPagesStep(vm, q, lo, hi);
      if Page(q, lo) in vm.pages {
        HeldCount(vm, Page(q, lo));
        UnmapEffect(vm, Page(q, lo));
        UnmapPagesAre(Unmap(vm, Page(q, lo)), q, lo + 1, hi);
      } else {
        UnmapPagesAre(vm, q, lo + 1, hi);
      }
    }
  }

  predicate Covers(v: Vma, lo: nat, hi: nat) {
    v.start <= lo && hi <= v.end
  }

  // The area that an unmapping takes, and the pages that go with it.
  ghost predicate TakesArea(s: Sys, u: Sys, a: nat, n: nat, i: nat)
    requires s.active in s.tasks
  {
    var t := s.tasks[s.active];
    && i < |t.areas| && Covers(t.areas[i], a, a + n) && (forall j :: 0 <= j < i ==> !Covers(t.areas[j], a, a + n))
    && u.tasks == s.tasks[s.active := t.(areas := t.areas[..i] + t.areas[i + 1..])]
    && forall p: Page {:trigger p in u.vm.pages} ::
         p in u.vm.pages <==>
           p in s.vm.pages && !(p.space == s.active && t.areas[i].start / 4096 <= p.number < (t.areas[i].end + 4095) / 4096)
  }

  // An unmapping stops the machine exactly when no area covers both ends; otherwise the first
  // that does goes, with the pages from the one its start lies in up to its end.
  lemma MunmapIs(s: Sys, l: Layout, a: nat, n: nat)
    requires Inv(s, l) && Enabled(s, l, Munmap(a, n))
    ensures s.active in s.tasks
    ensures Step(s, l, Munmap(a, n)).None? <==>
              forall i :: 0 <= i < |s.tasks[s.active].areas| ==> !Covers(s.tasks[s.active].areas[i], a, a + n)
    ensures Step(s, l, Munmap(a, n)).Some? ==> exists i :: TakesArea(s, Step(s, l, Munmap(a, n)).value, a, n, i)
  {
    hide Inv, StepFork, StepExec, StepLoad, StepStore, StepExit, StepKernelMap, KernelStored, AfterMmap, UnmapPages, AreasOk;
    hide Bounded, WellFormed, Counted;
    ActiveInUse(s, l);
    var areas := s.tasks[s.active].areas;
    var i := FirstCover(areas, a, a + n);
    if i < |areas| {
      InUseUser(s.vm, s.active);
      UnmapPagesAre(s.vm, s.active, AreaFirst(areas[i]), UnmapLimit(areas[i]));
      assert TakesArea(s, Step(s, l, Munmap(a, n)).value, a, n, i);
    }
  }

  // ------------------------------------------------------------- fork, exec and exit

  // The page of the address is one that an area of the list reaches into.
  predicate Reaches(areas: seq<Vma>, a: nat) {
    exists i {:trigger areas[i]} ::
      && 0 <= i < |areas| && areas[i].start <= areas[i].end && areas[i].start / 4096 <= PageOf(a) <= areas[i].end / 4096
  }

  // The child of a fork has areas and heap top of its parent, and its byte at every address
  // whose page an area reaches into; no other page is there.
  lemma ForkIs(s: Sys, l: Layout, slot: nat, a: nat, cell: Cell)
    requires Inv(s, l) && Enabled(s, l, Fork(slot)) && Step(s, l, Fork(slot)).Some?
    requires Private(a) && Has(s.vm, s.active, a, cell)
    ensures s.active in s.tasks
    ensures var u, t := Step(s, l, Fork(slot)).value, s.tasks[s.active];
            && u.active == s.nextPid && u.tasks == s.tasks[s.nextPid := Task(slot, t.areas, t.heapTop, true)]
            && Has(u.vm, u.active, a, if Reaches(t.areas, a) then cell else Absent)
  {
    hide Inv, Private, PageOf, Has, StepExec, StepLoad, StepStore, StepMunmap, StepExit, StepKernelMap, KernelStored, AfterMmap;
    hide SlotFree, AreasOk, NewSpace, CopyAreas, WellFormed, Bounded;
    ForkBirth(s, l, slot, a, cell);
    ForkKeeps(s, l, slot);
    ReachesIs(s.tasks[s.active].areas, a);
  }

  lemma ReachesIs(areas: seq<Vma>, a: nat)
    ensures Reaches(areas, a) <==> InArea(areas, PageOf(a))
  {
    hide PageOf;
    assert forall i {:trigger areas[i]} :: 0 <= i < |areas| ==>
             (areas[i].start <= areas[i].end && areas[i].start / 4096 <= PageOf(a) <= areas[i].end / 4096
              <==> AreaFirst(areas[i]) <= PageOf(a) < AreaLimit(areas[i]));
  }

  // The process of an exec has the areas and the heap top of its program.
  lemma ExecIs(s: Sys, l: Layout, slot: nat, areas: seq<Vma>, heapTop: nat, image: seq<(nat, Frame)>)
    requires Inv(s, l) && Enabled(s, l, Exec(slot, areas, heapTop, image))
    requires Step(s, l, Exec(slot, areas, heapTop, image)).Some?
    ensures var u := Step(s, l, Exec(slot, areas, heapTop, image)).value;
            u.active == s.nextPid && u.tasks == s.tasks[s.nextPid := Task(slot, areas, heapTop, true)]
  {
    hide Inv, StepFork, StepLoad, StepStore, StepMunmap, StepExit, StepKernelMap, KernelStored, AfterMmap;
    hide SlotFree, AreasOk, NewSpace, LoadImage, WellFormed, ImageOk;
    ExecKeeps(s, l, slot, areas, heapTop, image);
  }

  // One of the areas takes the page with it when it is unmapped.
  predicate Freed(areas: seq<Vma>, n: nat) {
    exists i {:trigger areas[i]} :: 0 <= i < |areas| && areas[i].start / 4096 <= n < (areas[i].end + 4095) / 4096
  }

  lemma {:induction false} ReleaseAre(vm: Vm, q: nat, areas: seq<Vma>)
    requires WellFormed(vm) && Counted(vm) && q != KERNEL
    ensures forall p: Page {:trigger p in ReleaseAreas(vm, q, areas).pages} ::
              p in ReleaseAreas(vm, q, areas).pages <==> p in vm.pages && !(p.space == q && Freed(areas, p.number))
    decreases |areas|
  {
    hide WellFormed, Counted, UnmapPages, Freed;
    if areas == [] {
      assert forall n: nat :: !Freed([], n) by { NothingFreed(); }
    } else {
      UnmapPagesAre(vm, q, AreaFirst(areas[0]), UnmapLimit(areas[0]));
      ReleaseAre(UnmapPages(vm, q, AreaFirst(areas[0]), UnmapLimit(areas[0])), q, areas[1..]);
      FreedFirst(areas);
    }
  }

  lemma NothingFreed()
    ensures forall n: nat :: !Freed([], n)
  {
  }

  lemma FreedFirst(areas: seq<Vma>)
    requires areas != []
    ensures forall n: nat {:trigger Freed(areas, n)} {:trigger Freed(areas[1..], n)} ::
              Freed(areas, n) <==> AreaFirst(areas[0]) <= n < UnmapLimit(areas[0]) || Freed(areas[1..], n)
  {
    assert forall i {:trigger areas[i]} :: 1 <= i < |areas| ==> areas[i] == areas[1..][i - 1];
    forall n: nat {:trigger Freed(areas, n)} {:trigger Freed(areas[1..], n)} |
      AreaFirst(areas[0]) <= n < UnmapLimit(areas[0]) || Freed(areas[1..], n)
      ensures Freed(areas, n)
    {
      if Freed(areas[1..], n) {
        var i :| 0 <= i < |areas[1..]| && areas[1..][i].start / 4096 <= n < (areas[1..][i].end + 4095) / 4096;
        assert areas[i + 1] == areas[1..][i];
      } else {
        assert areas[0].start / 4096 <= n;
      }
    }
  }

  // An exit leaves no area, and of the pages of the process just those that no area takes
  // with it.
  lemma ExitIs(s: Sys, l: Layout)
    requires Inv(s, l) && Enabled(s, l, Exit)
    ensures s.active in s.tasks && Step(s, l, Exit).Some?
    ensures var u, t := Step(s, l, Exit).value, s.tasks[s.active];
            && u.active == 0 && u.tasks == s.tasks[s.active := t.(areas := [], live := false)]
            && forall p: Page {:trigger p in u.vm.pages} ::
                 p in u.vm.pages <==> p in s.vm.pages && !(p.space == s.active && Freed(t.areas, p.number))
  {
    hide Inv, StepFork, StepExec, StepLoad, StepStore, StepMunmap, StepKernelMap, KernelStored, AfterMmap, ReleaseAreas, AreasOk;
    hide Bounded, WellFormed, Counted, Freed;
    ActiveInUse(s, l);
    InUseUser(s.vm, s.active);
    ReleaseAre(s.vm, s.active, s.tasks[s.active].areas);
  }
}
