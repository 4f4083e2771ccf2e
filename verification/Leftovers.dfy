/**
  What is left of a page when its frame goes to somebody else.  A frame is cleared twice, when
  it is freed and when it is mapped again, and both times only in its first 519 bytes.
 */
module Leftovers {
  import opened Addressing
  import Exactness
  import opened FirstRuns
  import opened FrameAllocator
  import opened Isolation
  import opened Memory
  import opened Recall
  import opened Runs
  import opened Spaces
  import TidyRuns
  import opened VirtualMemory
  import opened Wrappers

  // The bytes of memory but for those of free frames.
  ghost predicate Refilled(vm: Vm, data: seq<Frame>) {
    |data| == |vm.data| && forall f {:trigger data[f]} :: 0 <= f < |data| && !FreeFrame(vm, f) ==> data[f] == vm.data[f]
  }

  function With(s: Sys, data: seq<Frame>): Sys {
    s.(vm := s.vm.(data := data))
  }

  // Nothing but the bytes depends on the bytes.
  lemma RefilledInv(s: Sys, l: Layout, data: seq<Frame>)
    requires Inv(s, l) && Refilled(s.vm, data)
    ensures Inv(With(s, data), l)
  {
    hide WellFormed, Counted, Owned, AreasOk, KernelApart, Layout.IsAlias, Refilled;
    var v := With(s, data).vm;
    SameLengthData(s.vm, data) by { assert |data| == |s.vm.data| by { RefilledLength(s.vm, data); } }
    Counting.SameCounted(s.vm, v);
    FewerOwned(s.vm, v, s.parents);
    assert KernelApart(v) by { SamePagesApart(s.vm, v); }
  }

  lemma RefilledLength(vm: Vm, data: seq<Frame>)
    requires Refilled(vm, data)
    ensures |data| == |vm.data|
  {
  }

  // With these bytes in the frames, the active process loads zero.
  ghost predicate LoadsZero(s: Sys, l: Layout, a: nat, data: seq<Frame>)
    requires Inv(s, l) && Refilled(s.vm, data) && Enabled(s, l, Load(a))
  {
    RefilledInv(s, l, data);
    var r := StepLoad(With(s, data), l, a);
    r.Some? && Reads(r.value.vm, s.active, a, 0)
  }

  // A page that was not there shows a frame that was free, and of its bytes those from 519 on.
  ghost predicate FreshByte(vm: Vm, data: seq<Frame>, space: nat, a: nat, v: Vm) {
    var p := UserPage(space, a);
    && p in v.pages && FreeFrame(vm, v.pages[p].frame) && v.pages[p].frame < |data|
    && Reads(v, space, a, if OffsetOf(a) < CLEARED then 0 else data[v.pages[p].frame][OffsetOf(a)])
  }

  lemma FreshAccess(vm: Vm, data: seq<Frame>, space: nat, areas: seq<Vma>, a: nat)
    requires WellFormed(vm) && WellFormed(vm.(data := data)) && InUse(vm, space) && Private(a)
    requires UserPage(space, a) !in vm.pages && Access(vm, space, areas, a, false).Some?
    ensures InUse(vm.(data := data), space) && Access(vm.(data := data), space, areas, a, false).Some?
    ensures FreshByte(vm, data, space, a, Access(vm.(data := data), space, areas, a, false).value)
  {
    hide WellFormed, Access, Private, PageOf, OffsetOf, Reads, Fails, Spaces.Covered;
    var v := vm.(data := data);
    AccessFailsIff(vm, space, areas, a, false);
    AccessFailsIff(v, space, areas, a, false);
    SameFails(vm, data, space, areas, a);
    AccessFresh(v, space, areas, a, false, a);
  }

  ghost predicate LoadsFresh(s: Sys, l: Layout, a: nat, data: seq<Frame>)
    requires Inv(s, l) && Refilled(s.vm, data) && Enabled(s, l, Load(a))
  {
    RefilledInv(s, l, data);
    var r := StepLoad(With(s, data), l, a);
    r.Some? && FreshByte(s.vm, data, s.active, a, r.value.vm)
  }

  // The first load of a page: it goes through whatever the free frames hold, and finds what
  // one of them holds, cleared below 519.
  lemma FirstLoad(s: Sys, l: Layout, a: nat, data: seq<Frame>)
    requires Inv(s, l) && Enabled(s, l, Load(a)) && UserPage(s.active, a) !in s.vm.pages
    requires StepLoad(s, l, a).Some? && Refilled(s.vm, data)
    ensures LoadsFresh(s, l, a, data)
  {
    RefilledInv(s, l, data);
    hide Inv, WellFormed, Counted, Access, Private, AreasOk, Bounded, PageOf, InUse, Refilled, FreshByte;
    ActiveInUse(s, l);
    ActiveInUse(With(s, data), l);
    FreshAccess(s.vm, data, s.active, s.tasks[s.active].areas, a);
  }

  lemma SameFails(vm: Vm, data: seq<Frame>, space: nat, areas: seq<Vma>, a: nat)
    ensures Fails(vm.(data := data), space, areas, a, false) == Fails(vm, space, areas, a, false)
  {
    hide PageOf, Private, Spaces.Covered;
  }

  // In every state of a run, of the first load of a page: it gives 0 whatever the free frames
  // hold, that is whatever anybody stored in them before, exactly at the offsets below 519.
  lemma FreshByteIff(s0: Sys, l: Layout, events: seq<Event>, s: Sys, a: nat)
    requires Inv(s0, l) && RunsTo(s0, l, events, s)
    ensures Inv(s, l)
    ensures Enabled(s, l, Load(a)) && UserPage(s.active, a) !in s.vm.pages && StepLoad(s, l, a).Some? ==>
      ((forall data {:trigger Refilled(s.vm, data)} :: Refilled(s.vm, data) ==> LoadsZero(s, l, a, data))
       <==> OffsetOf(a) < CLEARED)
  {
    RunInv(s0, l, events, s);
    hide Inv, Enabled, StepLoad, RunsTo, Reads, OffsetOf, PageOf, Refilled;
    if Enabled(s, l, Load(a)) && UserPage(s.active, a) !in s.vm.pages && StepLoad(s, l, a).Some? {
      if OffsetOf(a) < CLEARED {
        forall data | Refilled(s.vm, data)
          ensures LoadsZero(s, l, a, data)
        {
          FirstLoad(s, l, a, data);
        }
      } else {
        var data := Ones(s.vm);
        OnesRefilled(s.vm);
        FirstLoad(s, l, a, data);
        NotZero(s, l, a, data);
      }
    }
  }

  // Every free frame full of ones.
  const ONES: Frame := seq(4096, _ => 1)

  function Ones(vm: Vm): seq<Frame> {
    seq(|vm.data|, f requires 0 <= f < |vm.data| => if FreeFrame(vm, f) then ONES else vm.data[f])
  }

  lemma OnesRefilled(vm: Vm)
    ensures Refilled(vm, Ones(vm))
  {
  }

  lemma NotZero(s: Sys, l: Layout, a: nat, data: seq<Frame>)
    requires Inv(s, l) && Enabled(s, l, Load(a)) && Refilled(s.vm, data) && data == Ones(s.vm)
    requires OffsetOf(a) >= CLEARED && LoadsFresh(s, l, a, data)
    ensures !LoadsZero(s, l, a, data)
  {
    hide Inv, Enabled, StepLoad, PageOf, Refilled, Private;
  }

  // ------------------------------------------------------ a frame changes hands

  lemma ZeroTwice(fr: Frame, n: nat)
    ensures ZeroPrefix(ZeroPrefix(fr, n), n) == ZeroPrefix(fr, n)
  {
  }

  // The last unmapping of a frame: the tables stay, and the frame heads the free list.
  lemma LastUnmapped(vm: Vm, p: Page)
    requires WellFormed(vm) && p in vm.pages && RefCount(vm, vm.pages[p].frame) == 1
    ensures var u, f := Unmap(vm, p), vm.pages[p].frame;
            && u.tables == vm.tables && u.base == vm.base && u.pages == vm.pages - {p}
            && u.alloc.free == [f - vm.base] + vm.alloc.free
            && |u.data| == |vm.data| && f < |u.data| && u.data[f] == ZeroPrefix(vm.data[f], CLEARED)
  {
    UnmapEffect(vm, p);
    hide WellFormed, Unmap, ZeroPrefix;
  }

  // The last holder of a frame unmaps it, and the next page that is mapped, in whatever space,
  // gets the same frame, with all bytes but the first 519.
  lemma Reused(vm: Vm, p: Page, space: nat, n: nat)
    requires WellFormed(vm) && Counted(vm) && p in vm.pages && p.space != KERNEL
    requires vm.base <= vm.pages[p].frame < vm.base + |vm.alloc.refs| <= |vm.data| && RefCount(vm, vm.pages[p].frame) == 1
    requires Reachable(vm, space, n) && PageIn(space, n) !in vm.pages && Missing(vm, space, n) == 0 && |vm.alloc.free| >= 5
    ensures WellFormed(Unmap(vm, p)) && Reachable(Unmap(vm, p), space, n) && MapPage(Unmap(vm, p), space, n).Some?
    ensures var v, f := MapPage(Unmap(vm, p), space, n).value, vm.pages[p].frame;
            && PageIn(space, n) in v.pages && v.pages[PageIn(space, n)].frame == f < |v.data|
            && v.data[f] == ZeroPrefix(vm.data[f], CLEARED)
  {
    UnmapWellFormed(vm, p);
    LastUnmapped(vm, p);
    hide WellFormed, Counted, Unmap, MapPage, ZeroPrefix, PageIn;
    var u := Unmap(vm, p);
    assert Reachable(u, space, n) && Missing(u, space, n) == 0;
    hide Reachable, Missing;
    ZeroTwice(vm.data[vm.pages[p].frame], CLEARED);
    NextPage(u, space, n);
  }

  // With all tables there, a page is mapped to the first frame of the free list.
  lemma NextPage(vm: Vm, space: nat, n: nat)
    requires WellFormed(vm) && Reachable(vm, space, n) && PageIn(space, n) !in vm.pages
    requires Missing(vm, space, n) == 0 && |vm.alloc.free| >= 6
    ensures MapPage(vm, space, n).Some?
    ensures var v, f := MapPage(vm, space, n).value, vm.base + vm.alloc.free[0];
            && PageIn(space, n) in v.pages && v.pages[PageIn(space, n)].frame == f < |v.data| == |vm.data|
            && v.data[f] == ZeroPrefix(vm.data[f], CLEARED)
  {
    PathThere(vm, space, n);
    MapPageEffect(vm, space, n);
    hide TablesOk, PagesOk, EnsurePath, ZeroPrefix, Reachable, Missing, Quiet, FreeFrame, Mappable, PageIn, Frames.Take;
  }

  lemma PathThere(vm: Vm, space: nat, n: nat)
    requires WellFormed(vm) && Reachable(vm, space, n) && Missing(vm, space, n) == 0
    ensures EnsurePath(vm, space, n) == Some(vm)
  {
    MissingBelow(vm, space, n);
    PathPlaced(vm, space, n);
    hide WellFormed, Reachable, Placed;
  }

  // ------------------------------------------- a run from boot that reads a leftover byte

  // What a mapping of 2000 bytes gives to a process of one page, and an address in it.
  const NEXT := Vma(8192, 10191)
  const SPOT: nat := 9192

  lemma NextMapped(t: Task)
    requires t.areas == [AREA] && t.heapTop == 8192
    ensures AfterMmap(t, 2000) == t.(areas := [AREA, NEXT], heapTop := 12288)
  {
  }

  lemma SpotLies()
    ensures Private(SPOT) && PageOf(SPOT) == 2 && OffsetOf(SPOT) == 1000 && Spaces.Covered([AREA, NEXT], SPOT)
    ensures !Exactness.InArea([AREA], 2)
  {
    LowPrivate(SPOT);
    assert [AREA, NEXT][1].Holds(SPOT);
  }

  // The child has stored to a page of its own, whose frame nobody else shows.
  ghost predicate Stored(vm: Vm, b: Byte) {
    && Page(1, 1) in vm.pages && Page(1, 2) !in vm.pages && Page(2, 2) in vm.pages
    && var f := vm.pages[Page(2, 2)].frame;
    && vm.base <= f < vm.base + |vm.alloc.refs| <= |vm.data| && RefCount(vm, f) == 1
    && vm.data[f][1000] == b && |vm.alloc.free| >= 5
  }

  // It still shows another page of its parent's.
  ghost predicate Sharing(vm: Vm) {
    && Page(2, 1) in vm.pages && Page(2, 2) in vm.pages && vm.pages[Page(2, 1)].frame != vm.pages[Page(2, 2)].frame
  }

  // Its frame is the next to be taken, the byte still in it.
  ghost predicate Abandoned(vm: Vm, b: Byte) {
    && Page(1, 1) in vm.pages && Page(1, 2) !in vm.pages && |vm.alloc.free| >= 6
    && 0 <= vm.base + vm.alloc.free[0] < |vm.data| && vm.data[vm.base + vm.alloc.free[0]][1000] == b
  }

  lemma SpotMaps(vm: Vm, b: Byte)
    requires WellFormed(vm) && InUse(vm, 2) && Page(1, 1) in vm.pages && Page(1, 2) !in vm.pages
    requires Page(2, 1) in vm.pages && Page(2, 2) !in vm.pages && |vm.alloc.free| >= 9
    ensures Private(SPOT) && UserPage(2, SPOT) == Page(2, 2) && OffsetOf(SPOT) == 1000
    ensures Access(vm, 2, [AREA, NEXT], SPOT, true).Some?
    ensures var v := Access(vm, 2, [AREA, NEXT], SPOT, true).value;
            && Permitted(v, 2, SPOT, true) && Page(2, 2) in v.pages && v.pages[Page(2, 2)].frame < |v.data|
            && Stored(StoreByte(v, 2, SPOT, b), b) && Sharing(StoreByte(v, 2, SPOT, b))
  {
    SpotLies();
    hide WellFormed, Private, PageOf, OffsetOf, Missing, MapPage, Reachable, Mappable, FreeFrame, ZeroPrefix, Spaces.Covered;
    PrivateReachable(vm, 2, SPOT);
    MapPageIff(vm, 2, 2);
    AtMostThree(vm, 2, 2);
    MapPageEffect(vm, 2, 2);
    var v := MapPage(vm, 2, 2).value;
    FreeUnheld(vm, v.pages[Page(2, 2)].frame);
    PoolInData(v);
  }

  lemma PoolInData(vm: Vm)
    requires WellFormed(vm)
    ensures vm.base + |vm.alloc.refs| <= |vm.data|
  {
    hide TablesOk, PagesOk;
  }

  lemma ChildLeaves(vm: Vm, b: Byte)
    requires WellFormed(vm) && Counted(vm) && Stored(vm, b) && Sharing(vm)
    ensures Abandoned(ReleaseAreas(vm, 2, [AREA, NEXT]), b)
  {
    hide WellFormed, Counted, UnmapPages, Unmap, Stored, Sharing, Abandoned, AreaFirst, UnmapLimit;
    OneUnmapped(vm, 2, 1) by { SharingPage(vm); }
    var v := Unmap(vm, Page(2, 1));
    SharedGoes(vm, b);
    OneUnmapped(v, 2, 2);
    OwnGoes(v, b);
    BothReleased(vm, v, Unmap(v, Page(2, 2)));
  }

  lemma SharingPage(vm: Vm)
    requires Sharing(vm)
    ensures Page(2, 1) in vm.pages
  {
  }

  lemma BothReleased(vm: Vm, v: Vm, w: Vm)
    requires WellFormed(vm) && Counted(vm) && WellFormed(v) && Counted(v)
    requires UnmapPages(vm, 2, 1, 2) == v && UnmapPages(v, 2, 2, 3) == w
    ensures ReleaseAreas(vm, 2, [AREA, NEXT]) == w
  {
    assert AreaFirst(AREA) == 1 && UnmapLimit(AREA) == 2 && AreaFirst(NEXT) == 2 && UnmapLimit(NEXT) == 3;
    assert [AREA, NEXT][1..] == [NEXT] && [NEXT][1..] == [];
    hide WellFormed, Counted, UnmapPages;
    assert ReleaseAreas(w, 2, []) == w;
    assert ReleaseAreas(v, 2, [NEXT]) == w;
  }

  lemma OneUnmapped(vm: Vm, q: nat, n: nat)
    requires WellFormed(vm) && Counted(vm) && q != KERNEL && Page(q, n) in vm.pages
    ensures vm.base <= vm.pages[Page(q, n)].frame < vm.base + |vm.alloc.refs| <= |vm.data|
    ensures WellFormed(Unmap(vm, Page(q, n))) && Counted(Unmap(vm, Page(q, n)))
    ensures UnmapPages(vm, q, n, n + 1) == Unmap(vm, Page(q, n))
  {
    hide WellFormed, Counted, Unmap, UnmapPages;
    UnmapPagesStep(vm, q, n, n + 1);
    UnmapPagesEnd(Unmap(vm, Page(q, n)), q, n + 1, n + 1);
  }

  lemma SharedGoes(vm: Vm, b: Byte)
    requires WellFormed(vm) && Counted(vm) && Stored(vm, b) && Sharing(vm)
    requires vm.base <= vm.pages[Page(2, 1)].frame < vm.base + |vm.alloc.refs| <= |vm.data|
    ensures Stored(Unmap(vm, Page(2, 1)), b) && Page(2, 2) in Unmap(vm, Page(2, 1)).pages
  {
    hide WellFormed, Counted, Unmap, ZeroPrefix;
    HeldCount(vm, Page(2, 1));
    UnmapEffect(vm, Page(2, 1));
  }

  lemma OwnGoes(v: Vm, b: Byte)
    requires WellFormed(v) && Stored(v, b)
    requires v.base <= v.pages[Page(2, 2)].frame < v.base + |v.alloc.refs| <= |v.data|
    ensures Abandoned(Unmap(v, Page(2, 2)), b)
  {
    hide WellFormed, Unmap;
    LastUnmapped(v, Page(2, 2));
  }

  // The parent loads the byte.
  lemma SpotRead(vm: Vm, b: Byte)
    requires WellFormed(vm) && InUse(vm, 1) && Abandoned(vm, b)
    ensures Private(SPOT) && Access(vm, 1, [AREA, NEXT], SPOT, false).Some?
    ensures Reads(Access(vm, 1, [AREA, NEXT], SPOT, false).value, 1, SPOT, b)
  {
    SpotLies();
    assert Missing(vm, 1, 2) == 0 by { TablesOfPage(vm); }
    hide WellFormed, Private, PageOf, OffsetOf, Missing, MapPage, Reachable, Spaces.Covered;
    PrivateReachable(vm, 1, SPOT);
    NextPage(vm, 1, 2);
  }

  // Page 2 lies in the table of page 1.
  lemma TablesOfPage(vm: Vm)
    requires WellFormed(vm) && Page(1, 1) in vm.pages
    ensures Pt(1, 2) in vm.tables
  {
  }

  lemma MapsNext(s: Sys, l: Layout)
    requires Inv(s, l) && Running(s) && s.tasks[s.active].areas == [AREA] && s.tasks[s.active].heapTop == 8192
    ensures Enabled(s, l, Mmap(2000)) && Step(s, l, Mmap(2000)).Some? && Inv(Step(s, l, Mmap(2000)).value, l)
    ensures Step(s, l, Mmap(2000)).value
         == s.(tasks := s.tasks[s.active := s.tasks[s.active].(areas := [AREA, NEXT], heapTop := 12288)])
  {
    hide Inv, StepFork, StepExec, StepLoad, StepStore, StepMunmap, StepExit, StepKernelMap, KernelStored, AfterMmap, Mapping;
    NextMapped(s.tasks[s.active]);
    StepInv(s, l, Mmap(2000));
  }

  lemma ChildStores(s: Sys, l: Layout, b: Byte)
    requires Inv(s, l) && Running(s) && s.active == 2 && s.tasks[2].areas == [AREA, NEXT] && |s.vm.alloc.free| >= 9
    requires Page(1, 1) in s.vm.pages && Page(1, 2) !in s.vm.pages && Page(2, 1) in s.vm.pages && Page(2, 2) !in s.vm.pages
    ensures Enabled(s, l, Store(SPOT, b)) && Step(s, l, Store(SPOT, b)).Some?
    ensures var t := Step(s, l, Store(SPOT, b)).value;
            Inv(t, l) && t == s.(vm := t.vm) && Stored(t.vm, b) && Sharing(t.vm)
  {
    hide Inv, WellFormed, Counted, AreasOk, Bounded, PageOf, OffsetOf, Private, Access, InUse, Permitted, Stored, Sharing, StoreByte;
    ActiveInUse(s, l);
    SpotMaps(s.vm, b);
    StepInv(s, l, Store(SPOT, b));
  }

  lemma ChildExits(s: Sys, l: Layout, b: Byte)
    requires Inv(s, l) && Running(s) && s.active == 2 && s.tasks[2].areas == [AREA, NEXT]
    requires Stored(s.vm, b) && Sharing(s.vm)
    ensures Enabled(s, l, Exit) && Step(s, l, Exit).Some?
    ensures var t := Step(s, l, Exit).value;
            && Inv(t, l) && Abandoned(t.vm, b)
            && forall p :: p in s.tasks && p != 2 ==> p in t.tasks && t.tasks[p] == s.tasks[p]
  {
    hide Inv, WellFormed, Counted, AreasOk, Bounded, ReleaseAreas, InUse, Stored, Sharing, Abandoned;
    ActiveInUse(s, l);
    ChildLeaves(s.vm, b);
    StepInv(s, l, Exit);
  }

  lemma ParentLoads(s: Sys, l: Layout, b: Byte)
    requires Inv(s, l) && Running(s) && s.active == 1 && s.tasks[1].areas == [AREA, NEXT] && Abandoned(s.vm, b)
    ensures Enabled(s, l, Load(SPOT)) && Step(s, l, Load(SPOT)).Some?
    ensures var t := Step(s, l, Load(SPOT)).value; Inv(t, l) && t.active == 1 && Reads(t.vm, 1, SPOT, b)
  {
    hide Inv, WellFormed, Counted, AreasOk, Bounded, Private, Access, InUse, Reads, Abandoned;
    ActiveInUse(s, l);
    SpotRead(s.vm, b);
    StepInv(s, l, Load(SPOT));
  }

  lemma NoNext(s: Sys, l: Layout)
    requires TwoTasks(s, l, FIRST, 9)
    ensures Page(1, 2) !in s.vm.pages && Page(2, 2) !in s.vm.pages
  {
    SpotLies();
    hide Inv, TidyRuns.TidyTask, Exactness.AllExact, Exactness.InArea;
  }

  lemma NotYet(s: Sys, l: Layout)
    requires OneTask(s, l)
    ensures UserPage(1, SPOT) !in s.vm.pages
  {
    SpotLies();
    hide Inv, TidyRuns.TidyTask, Exactness.AllExact, Exactness.InArea;
  }

  lemma SwitchGoes(s: Sys, l: Layout, pid: nat)
    requires Inv(s, l) && pid in s.tasks && s.tasks[pid].live
    ensures Enabled(s, l, Switch(pid)) && Step(s, l, Switch(pid)) == Some(s.(active := pid)) && Inv(s.(active := pid), l)
  {
    hide Inv;
    StepInv(s, l, Switch(pid));
  }

  // From boot: the first process forks, the child stores a byte to a new page and exits, and its
  // parent, which cannot read anything the child stores, maps a page and reads the byte.
  lemma LeftoverHappens(s: Sys, l: Layout, b: Byte) returns (t: Sys)
    requires OneTask(s, l)
    ensures RunsTo(s, l, [Fork(1)] + ([Mmap(2000)] + ([Store(SPOT, b)] + ([Exit]
              + ([Switch(1)] + ([Mmap(2000)] + ([Load(SPOT)] + [])))))), t)
    ensures t.active == 1 && UserPage(1, SPOT) !in s.vm.pages && Reads(t.vm, 1, SPOT, b) && !Ancestor(t.parents, 2, 1)
  {
    hide Inv, TidyRuns.Tidy, Step, Enabled, RunsTo, Reads, Stored, Sharing, Abandoned;
    NotYet(s, l);
    ForkGoes(s, l);
    var s1 := Step(s, l, Fork(1)).value;
    NoNext(s1, l);
    MapsNext(s1, l);
    var s2 := Step(s1, l, Mmap(2000)).value;
    ChildStores(s2, l, b);
    var s3 := Step(s2, l, Store(SPOT, b)).value;
    ChildExits(s3, l, b);
    var s4 := Step(s3, l, Exit).value;
    SwitchGoes(s4, l, 1);
    var s5 := s4.(active := 1);
    MapsNext(s5, l);
    var s6 := Step(s5, l, Mmap(2000)).value;
    ParentLoads(s6, l, b);
    t := Step(s6, l, Load(SPOT)).value;
    RunEnds(t, l);
    RunCons(s6, l, Load(SPOT), [], t);
    RunCons(s5, l, Mmap(2000), [Load(SPOT)] + [], t);
    RunCons(s4, l, Switch(1), [Mmap(2000)] + ([Load(SPOT)] + []), t);
    RunCons(s3, l, Exit, [Switch(1)] + ([Mmap(2000)] + ([Load(SPOT)] + [])), t);
    RunCons(s2, l, Store(SPOT, b), [Exit] + ([Switch(1)] + ([Mmap(2000)] + ([Load(SPOT)] + []))), t);
    RunCons(s1, l, Mmap(2000), [Store(SPOT, b)] + ([Exit] + ([Switch(1)] + ([Mmap(2000)] + ([Load(SPOT)] + [])))), t);
    RunCons(s, l, Fork(1), [Mmap(2000)] + ([Store(SPOT, b)] + ([Exit] + ([Switch(1)] + ([Mmap(2000)] + ([Load(SPOT)] + []))))), t);
  }
}
