/**
  What a process stores it reads back, whatever it and all the others do in between: for its
  own part of the address space the machine is a memory.
 */
module Recall {
  import opened Addressing
  import opened Isolation
  import opened Memory
  import opened Runs
  import opened Spaces
  import opened VirtualMemory
  import opened Wrappers

  // The process reads byte `c` at address `x`.
  ghost predicate Reads(vm: Vm, q: nat, x: nat, c: Byte) {
    && Private(x) && UserPage(q, x) in vm.pages
    && vm.pages[UserPage(q, x)].frame < |vm.data|
    && vm.data[vm.pages[UserPage(q, x)].frame][OffsetOf(x)] == c
  }

  // This is what its view of the address says.
  lemma ReadsIsView(vm: Vm, q: nat, x: nat, c: Byte)
    requires WellFormed(vm)
    ensures forall p {:trigger vm.pages[p]} :: p in vm.pages ==> vm.pages[p].frame < |vm.data|
    ensures Reads(vm, q, x, c) <==> View(vm, q, x) == Some(c)
  {
    FramesInData(vm);
    hide WellFormed, Private, PageOf;
  }

  lemma UndisturbedReads(vm: Vm, v: Vm, q: nat, x: nat, c: Byte)
    requires Undisturbed(vm, v, q) && Reads(vm, q, x, c)
    ensures Reads(v, q, x, c)
  {
    hide Private, PageOf;
  }

  // A fault of its own leaves every byte a process had: a split page has the same bytes, and a
  // new page was not there.
  lemma AccessReads(vm: Vm, q: nat, areas: seq<Vma>, a: nat, write: bool, x: nat, c: Byte)
    requires WellFormed(vm) && InUse(vm, q) && Private(a) && Reads(vm, q, x, c)
    ensures Access(vm, q, areas, a, write).Some? ==> Reads(Access(vm, q, areas, a, write).value, q, x, c)
  {
    hide WellFormed, MapPage, Reachable, Mappable, FreeFrame, PageIn, PageOf, ZeroPrefix, Quiet, Split, Covered, Private, OffsetOf;
    PrivateReachable(vm, q, a);
    var p, r := UserPage(q, a), Access(vm, q, areas, a, write);
    if r.Some? && !Permitted(vm, q, a, write) {
      if p in vm.pages {
        SplitEffect(vm, p);
      } else {
        MapPageEffect(vm, q, PageOf(a));
      }
      FreeUnheld(vm, r.value.pages[p].frame);
      assert vm.pages[UserPage(q, x)].frame != r.value.pages[p].frame;
    }
  }

  lemma StoreReads(vm: Vm, q: nat, a: nat, b: Byte, x: nat, c: Byte, parents: map<nat, nat>)
    requires WellFormed(vm) && Owned(vm, parents) && q != KERNEL && Permitted(vm, q, a, true) && Reads(vm, q, x, c)
    ensures vm.pages[UserPage(q, a)].frame < |vm.data|
    ensures Reads(StoreByte(vm, q, a, b), q, x, if x == a then b else c)
  {
    StoreVisible(vm, parents, q, a, b, q, x);
    hide WellFormed, Owned, Ancestor;
  }

  // An access to a page the process did not have: the page is there, its first bytes are zero,
  // and the others are what the frame held.
  lemma AccessFresh(vm: Vm, q: nat, areas: seq<Vma>, a: nat, write: bool, x: nat)
    requires WellFormed(vm) && InUse(vm, q) && Private(a) && Private(x) && UserPage(q, x) !in vm.pages
    ensures Access(vm, q, areas, a, write).Some? ==>
      var v, p := Access(vm, q, areas, a, write).value, UserPage(q, x);
      && (PageOf(a) != PageOf(x) ==> p !in v.pages)
      && (PageOf(a) == PageOf(x) ==>
            && p in v.pages && FreeFrame(vm, v.pages[p].frame) && v.pages[p].frame < |vm.data|
            && Reads(v, q, x, if OffsetOf(x) < CLEARED then 0 else vm.data[v.pages[p].frame][OffsetOf(x)]))
  {
    hide WellFormed, MapPage, Reachable, Mappable, FreeFrame, PageIn, PageOf, Quiet, Split, Covered, Private, OffsetOf;
    PrivateReachable(vm, q, a);
    if UserPage(q, a) in vm.pages {
      SplitEffect(vm, UserPage(q, a));
    } else {
      MapPageEffect(vm, q, PageOf(a));
    }
  }

  // An unmapping takes away the pages of its range, and leaves the others and their bytes.
  lemma {:induction false} UnmapReads(vm: Vm, q: nat, lo: nat, hi: nat, x: nat, c: Byte)
    requires WellFormed(vm) && Counted(vm) && q != KERNEL && Reads(vm, q, x, c) && !(lo <= PageOf(x) < hi)
    ensures Reads(UnmapPages(vm, q, lo, hi), q, x, c)
    decreases hi - lo
  {
    hide WellFormed, Counted, Unmap, UnmapPages, Private, PageOf, Reads;
    if lo >= hi {
      UnmapPagesEnd(vm, q, lo, hi);
    } else {
      UnmapPagesStep(vm, q, lo, hi);
      if Page(q, lo) in vm.pages {
        UnmapOneReads(vm, q, lo, x, c);
        UnmapReads(Unmap(vm, Page(q, lo)), q, lo + 1, hi, x, c);
      } else {
        UnmapReads(vm, q, lo + 1, hi, x, c);
      }
    }
  }

  // Clearing a page on its last unmapping hurts no other page of the process either.
  lemma UnmapOneReads(vm: Vm, q: nat, n: nat, x: nat, c: Byte)
    requires WellFormed(vm) && Counted(vm) && Page(q, n) in vm.pages && Reads(vm, q, x, c) && PageOf(x) != n
    ensures vm.base <= vm.pages[Page(q, n)].frame < vm.base + |vm.alloc.refs| <= |vm.data|
    ensures Reads(Unmap(vm, Page(q, n)), q, x, c)
  {
    hide WellFormed, Unmap, Counted, Private, PageOf, ZeroPrefix;
    var p := Page(q, n);
    HeldCount(vm, p);
    UnmapEffect(vm, p);
    if vm.pages[UserPage(q, x)].frame == vm.pages[p].frame && RefCount(vm, vm.pages[p].frame) <= 1 {
      SoleHolder(vm, p, UserPage(q, x));
    }
  }

  lemma {:induction false} UnmapGone(vm: Vm, q: nat, lo: nat, hi: nat, p: Page)
    requires WellFormed(vm) && Counted(vm) && q != KERNEL
    requires p in vm.pages ==> p.space == q && lo <= p.number < hi
    ensures p !in UnmapPages(vm, q, lo, hi).pages
    decreases hi - lo
  {
    hide WellFormed, Counted, Unmap, UnmapPages;
    if lo >= hi {
      UnmapPagesEnd(vm, q, lo, hi);
    } else {
      UnmapPagesStep(vm, q, lo, hi);
      if Page(q, lo) in vm.pages {
        HeldCount(vm, Page(q, lo));
        UnmapEffect(vm, Page(q, lo));
        UnmapGone(Unmap(vm, Page(q, lo)), q, lo + 1, hi, p);
      } else {
        UnmapGone(vm, q, lo + 1, hi, p);
      }
    }
  }

  // ------------------------------------------------------------------- one cell

  // What is known of a byte of a process: its page is not there; the page is there and the byte
  // is left over from somebody; or the byte is the process's own.
  datatype Cell = Absent | Stale | Known(b: Byte)

  ghost predicate Has(vm: Vm, q: nat, x: nat, cell: Cell) {
    match cell
    case Absent => UserPage(q, x) !in vm.pages
    case Stale => exists c :: Reads(vm, q, x, c)
    case Known(c) => Reads(vm, q, x, c)
  }

  // A first touch of the page clears the bytes below 519, and those only.
  function Touched(cell: Cell, a: nat, x: nat): Cell {
    if cell.Absent? && PageOf(a) == PageOf(x) then (if OffsetOf(x) < CLEARED then Known(0) else Stale) else cell
  }

  // Whether an unmapping takes the page of an address away.
  predicate Removes(t: Task, a: nat, length: nat, x: nat) {
    var i := FirstCover(t.areas, a, a + length);
    i < |t.areas| && AreaFirst(t.areas[i]) <= PageOf(x) < UnmapLimit(t.areas[i])
  }

  // What an event of the process itself makes of the byte at `x`, and of the process.
  function OwnCell(t: Task, e: Event, x: nat, cell: Cell): Cell {
    match e
    case Load(a) => Touched(cell, a, x)
    case Store(a, b) => if a == x then Known(b) else Touched(cell, a, x)
    case Munmap(a, length) => if Removes(t, a, length, x) then Absent else cell
    case _ => cell
  }

  function OwnTask(t: Task, e: Event): Task {
    match e
    case Mmap(length) => if t.heapTop > 0 then AfterMmap(t, length) else t
    case Munmap(a, length) =>
      var i := FirstCover(t.areas, a, a + length);
      if i < |t.areas| then t.(areas := Without(t.areas, i)) else t
    case _ => t
  }

  lemma AccessHas(vm: Vm, q: nat, areas: seq<Vma>, a: nat, write: bool, x: nat, cell: Cell)
    requires WellFormed(vm) && InUse(vm, q) && Private(a) && Private(x) && Has(vm, q, x, cell)
    ensures Access(vm, q, areas, a, write).Some? ==> Has(Access(vm, q, areas, a, write).value, q, x, Touched(cell, a, x))
  {
    hide WellFormed, InUse, Private, Access, Reads, PageOf, FreeFrame, OffsetOf;
    match cell
    case Absent => AccessFresh(vm, q, areas, a, write, x);
    case Stale =>
      var c :| Reads(vm, q, x, c);
      AccessReads(vm, q, areas, a, write, x, c);
    case Known(c) => AccessReads(vm, q, areas, a, write, x, c);
  }

  lemma StoreHas(vm: Vm, q: nat, a: nat, b: Byte, x: nat, cell: Cell, parents: map<nat, nat>)
    requires WellFormed(vm) && Owned(vm, parents) && q != KERNEL && Permitted(vm, q, a, true) && Has(vm, q, x, cell)
    requires a == x ==> !cell.Absent?
    ensures vm.pages[UserPage(q, a)].frame < |vm.data|
    ensures Has(StoreByte(vm, q, a, b), q, x, if a == x then Known(b) else cell)
  {
    hide WellFormed, Owned, Private, Reads, PageOf, Permitted, StoreByte;
    StorePages(vm, q, a, b);
    match cell
    case Absent =>
    case Stale =>
      var c :| Reads(vm, q, x, c);
      StoreReads(vm, q, a, b, x, c, parents);
    case Known(c) => StoreReads(vm, q, a, b, x, c, parents);
  }

  lemma StorePages(vm: Vm, q: nat, a: nat, b: Byte)
    requires WellFormed(vm) && Permitted(vm, q, a, true)
    ensures UserPage(q, a) in vm.pages && vm.pages[UserPage(q, a)].frame < |vm.data|
    ensures StoreByte(vm, q, a, b).pages == vm.pages
  {
    FramesInData(vm);
  }

  lemma UnmapHas(vm: Vm, q: nat, lo: nat, hi: nat, x: nat, cell: Cell)
    requires WellFormed(vm) && Counted(vm) && q != KERNEL && Has(vm, q, x, cell)
    ensures Has(UnmapPages(vm, q, lo, hi), q, x, if lo <= PageOf(x) < hi then Absent else cell)
  {
    hide WellFormed, Counted, UnmapPages, Reads, PageOf;
    if lo <= PageOf(x) < hi || cell.Absent? {
      UnmapGone(vm, q, lo, hi, UserPage(q, x));
    } else {
      match cell
      case Stale =>
        var c :| Reads(vm, q, x, c);
        UnmapReads(vm, q, lo, hi, x, c);
      case Known(c) => UnmapReads(vm, q, lo, hi, x, c);
    }
  }

  lemma UndisturbedHas(vm: Vm, v: Vm, q: nat, x: nat, cell: Cell)
    requires Undisturbed(vm, v, q) && Has(vm, q, x, cell)
    ensures Has(v, q, x, cell)
  {
    hide Reads, PageOf;
    match cell
    case Absent =>
    case Stale =>
      var c :| Reads(vm, q, x, c);
      UndisturbedReads(vm, v, q, x, c);
    case Known(c) => UndisturbedReads(vm, v, q, x, c);
  }

  // ------------------------------------------------------------------- one step

  lemma LoadHas(s: Sys, l: Layout, a: nat, x: nat, cell: Cell)
    requires Inv(s, l) && Enabled(s, l, Load(a)) && StepLoad(s, l, a).Some? && Private(x) && Has(s.vm, s.active, x, cell)
    ensures Has(StepLoad(s, l, a).value.vm, s.active, x, Touched(cell, a, x))
    ensures StepLoad(s, l, a).value.tasks == s.tasks
  {
    hide Inv, WellFormed, Counted, Access, Private, AreasOk, Bounded, Has, Touched;
    ActiveInUse(s, l);
    AccessHas(s.vm, s.active, s.tasks[s.active].areas, a, false, x, cell);
  }

  lemma StoreStepHas(s: Sys, l: Layout, a: nat, b: Byte, x: nat, cell: Cell)
    requires Inv(s, l) && Enabled(s, l, Store(a, b)) && StepStore(s, l, a, b).Some? && Private(x) && Has(s.vm, s.active, x, cell)
    ensures Has(StepStore(s, l, a, b).value.vm, s.active, x, if a == x then Known(b) else Touched(cell, a, x))
    ensures StepStore(s, l, a, b).value.tasks == s.tasks
  {
    hide Inv, WellFormed, Counted, Owned, Access, Private, AreasOk, Bounded, Has, Permitted, Undisturbed, TopsSame, PageOf, OffsetOf;
    ActiveInUse(s, l);
    InUseUser(s.vm, s.active);
    var areas := s.tasks[s.active].areas;
    AccessHas(s.vm, s.active, areas, a, true, x, cell);
    AccessKeeps(s, l, a, true);
    StoreHas(Access(s.vm, s.active, areas, a, true).value, s.active, a, b, x, Touched(cell, a, x), s.parents);
  }

  lemma MunmapHas(s: Sys, l: Layout, a: nat, length: nat, x: nat, cell: Cell)
    requires Inv(s, l) && Enabled(s, l, Munmap(a, length)) && StepMunmap(s, l, a, length).Some? && Has(s.vm, s.active, x, cell)
    ensures var t, k := StepMunmap(s, l, a, length).value, s.tasks[s.active];
            && Has(t.vm, s.active, x, if Removes(k, a, length, x) then Absent else cell)
            && t.tasks == s.tasks[s.active := k.(areas := Without(k.areas, FirstCover(k.areas, a, a + length)))]
            && FirstCover(k.areas, a, a + length) < |k.areas|
  {
    hide Inv, WellFormed, Counted, UnmapPages, AreasOk, Bounded, Has, PageOf, InUse;
    ActiveInUse(s, l);
    InUseUser(s.vm, s.active);
    var k := s.tasks[s.active];
    var i := FirstCover(k.areas, a, a + length);
    UnmapHas(s.vm, s.active, AreaFirst(k.areas[i]), UnmapLimit(k.areas[i]), x, cell);
  }

  // Everything a process does itself but exit.
  lemma OwnStepHas(s: Sys, l: Layout, e: Event, x: nat, cell: Cell)
    requires Inv(s, l) && Enabled(s, l, e) && Step(s, l, e).Some? && Running(s)
    requires Private(x) && Has(s.vm, s.active, x, cell) && !e.Exit? && ByOwner(e)
    ensures var t, k := Step(s, l, e).value, s.tasks[s.active];
            && Has(t.vm, s.active, x, OwnCell(k, e, x, cell))
            && s.active in t.tasks && t.tasks[s.active] == OwnTask(k, e) && t.tasks[s.active].live
  {
    hide Inv, StepFork, StepExec, StepLoad, StepStore, StepMunmap, StepExit, Has, Undisturbed, ImageOk, AreasOk, SlotFree;
    hide Private, Touched, Removes, StepKernelMap, KernelStored, AfterMmap;
    ActiveOld(s, l);
    match e
    case Fork(slot) =>
      ForkIsolated(s, l, slot, s.active);
      UndisturbedHas(s.vm, Step(s, l, e).value.vm, s.active, x, cell);
    case Exec(slot, areas, heapTop, image) =>
      ExecIsolated(s, l, slot, areas, heapTop, image, s.active);
      UndisturbedHas(s.vm, Step(s, l, e).value.vm, s.active, x, cell);
    case Load(a) => LoadHas(s, l, a, x, cell);
    case Store(a, b) => StoreStepHas(s, l, a, b, x, cell);
    case Mmap(length) => MmapLive(s.tasks[s.active], length);
    case Munmap(a, length) => MunmapHas(s, l, a, length, x, cell);
  }

  lemma MmapLive(t: Task, length: nat)
    requires t.heapTop > 0
    ensures AfterMmap(t, length).live == t.live
  {
  }

  lemma ActiveOld(s: Sys, l: Layout)
    requires Inv(s, l) && Running(s)
    ensures s.active < s.nextPid && s.tasks[s.active].heapTop > 0
  {
  }

  // The process does not exit, and no ancestor of it stores.
  ghost predicate Harmless(s: Sys, e: Event, q: nat) {
    && (s.active == q ==> !e.Exit?)
    && (e.Store? ==> !Ancestor(s.parents, s.active, q))
  }

  // Whatever somebody else does leaves cell and task alone.
  lemma OtherStepHas(s: Sys, l: Layout, e: Event, q: nat, x: nat, cell: Cell)
    requires Inv(s, l) && Enabled(s, l, e) && Step(s, l, e).Some? && Harmless(s, e, q) && (ByOwner(e) ==> s.active != q)
    requires q in s.tasks && s.tasks[q].live && Has(s.vm, q, x, cell)
    ensures var t := Step(s, l, e).value;
            Has(t.vm, q, x, cell) && q in t.tasks && t.tasks[q] == s.tasks[q]
  {
    hide Inv, Step, Has, Undisturbed, Ancestor;
    StepIsolated(s, l, e, q);
    UndisturbedHas(s.vm, Step(s, l, e).value.vm, q, x, cell);
    OtherTask(s, l, e, q);
  }

  lemma OtherTask(s: Sys, l: Layout, e: Event, q: nat)
    requires Inv(s, l) && Enabled(s, l, e) && Step(s, l, e).Some? && (ByOwner(e) ==> s.active != q) && q in s.tasks
    ensures q in Step(s, l, e).value.tasks && Step(s, l, e).value.tasks[q] == s.tasks[q]
  {
    hide WellFormed, Counted, Owned, AliasesOk, KernelOk, Access, NewSpace, UnmapPages, ReleaseAreas, CopyAreas, LoadImage;
    hide MapPage, AreasOk, ImageOk, KernelStored;
  }

  // ------------------------------------------------------------------ whole runs

  ghost predicate HarmlessRun(s: Sys, l: Layout, events: seq<Event>, q: nat)
    requires Inv(s, l)
    decreases |events|
  {
    events == [] || (
      && Enabled(s, l, events[0]) && Step(s, l, events[0]).Some? && Harmless(s, events[0], q)
      && (StepInv(s, l, events[0]); HarmlessRun(Step(s, l, events[0]).value, l, events[1..], q)))
  }

  // What the process itself does in a run, in order.
  ghost function OwnEvents(s: Sys, l: Layout, events: seq<Event>, q: nat): seq<Event>
    requires Inv(s, l) && HarmlessRun(s, l, events, q)
    decreases |events|
  {
    if events == [] then []
    else
      StepInv(s, l, events[0]);
      (if s.active == q && ByOwner(events[0]) then [events[0]] else [])
      + OwnEvents(Step(s, l, events[0]).value, l, events[1..], q)
  }

  // What a sequence of own events makes of the process and of a byte of it.
  function Folded(t: Task, own: seq<Event>, x: nat, cell: Cell): (Task, Cell)
    decreases |own|
  {
    if own == [] then (t, cell) else Folded(OwnTask(t, own[0]), own[1..], x, OwnCell(t, own[0], x, cell))
  }

  lemma StepFolds(s: Sys, l: Layout, e: Event, q: nat, x: nat, cell: Cell)
    requires Inv(s, l) && Enabled(s, l, e) && Step(s, l, e).Some? && Harmless(s, e, q)
    requires q in s.tasks && s.tasks[q].live && Private(x) && Has(s.vm, q, x, cell)
    ensures var t, own := Step(s, l, e).value, s.active == q && ByOwner(e);
            && Has(t.vm, q, x, if own then OwnCell(s.tasks[q], e, x, cell) else cell)
            && q in t.tasks && t.tasks[q].live
            && t.tasks[q] == if own then OwnTask(s.tasks[q], e) else s.tasks[q]
  {
    hide Inv, Step, Has, Enabled, OwnCell, OwnTask;
    if s.active == q && ByOwner(e) {
      OwnStepHas(s, l, e, x, cell);
    } else {
      OtherStepHas(s, l, e, q, x, cell);
    }
  }

  // The memory of a process is a function of what it does itself: of its bytes at the start and
  // of its own loads, stores, mappings and unmappings, whatever all the others do.
  lemma {:induction false} RunDetermined(s: Sys, l: Layout, events: seq<Event>, t: Sys, q: nat, x: nat, cell: Cell)
    requires Inv(s, l) && RunsTo(s, l, events, t) && HarmlessRun(s, l, events, q)
    requires q in s.tasks && s.tasks[q].live && Private(x) && Has(s.vm, q, x, cell)
    ensures var r := Folded(s.tasks[q], OwnEvents(s, l, events, q), x, cell);
            Has(t.vm, q, x, r.1) && q in t.tasks && t.tasks[q] == r.0 && t.tasks[q].live
    decreases |events|
  {
    if events != [] {
      hide Inv, Step, Enabled, Has, Harmless, OwnCell, OwnTask, Private;
      var e, u := events[0], Step(s, l, events[0]).value;
      StepInv(s, l, e);
      StepFolds(s, l, e, q, x, cell);
      var own := s.active == q && ByOwner(e);
      RunDetermined(u, l, events[1..], t, q, x, if own then OwnCell(s.tasks[q], e, x, cell) else cell);
      FoldCons(s.tasks[q], e, OwnEvents(u, l, events[1..], q), x, cell);
    }
  }

  lemma FoldCons(t: Task, e: Event, rest: seq<Event>, x: nat, cell: Cell)
    ensures Folded(t, [e] + rest, x, cell) == Folded(OwnTask(t, e), rest, x, OwnCell(t, e, x, cell))
    ensures [] + rest == rest
  {
    assert ([e] + rest)[1..] == rest;
  }

  // Two runs in which the process does the same: it reads the same, whatever the others did and
  // stored, at every address whose byte is its own.
  lemma SameReads(s1: Sys, l1: Layout, events1: seq<Event>, t1: Sys, s2: Sys, l2: Layout, events2: seq<Event>, t2: Sys,
                  q: nat, x: nat, cell: Cell)
    requires Inv(s1, l1) && RunsTo(s1, l1, events1, t1) && HarmlessRun(s1, l1, events1, q)
    requires Inv(s2, l2) && RunsTo(s2, l2, events2, t2) && HarmlessRun(s2, l2, events2, q)
    requires q in s1.tasks && q in s2.tasks && s1.tasks[q] == s2.tasks[q] && s1.tasks[q].live && Private(x)
    requires OwnEvents(s1, l1, events1, q) == OwnEvents(s2, l2, events2, q)
    requires Has(s1.vm, q, x, cell) && Has(s2.vm, q, x, cell)
    ensures var r := Folded(s1.tasks[q], OwnEvents(s1, l1, events1, q), x, cell).1;
            && (r.Absent? ==> UserPage(q, x) !in t1.vm.pages && UserPage(q, x) !in t2.vm.pages)
            && (r.Known? ==> Reads(t1.vm, q, x, r.b) && Reads(t2.vm, q, x, r.b))
  {
    hide Inv, RunsTo, HarmlessRun, OwnEvents, Folded, Reads, Private, PageOf;
    RunDetermined(s1, l1, events1, t1, q, x, cell);
    RunDetermined(s2, l2, events2, t2, q, x, cell);
  }

  // ----------------------------------------------------------- what it had, it keeps

  // No own unmapping takes the page of the address away.
  predicate Keeps(t: Task, own: seq<Event>, x: nat)
    decreases |own|
  {
    own == [] || (
      && !(own[0].Munmap? && Removes(t, own[0].a, own[0].length, x))
      && Keeps(OwnTask(t, own[0]), own[1..], x))
  }

  // The last byte stored at the address, or the one that was there.
  function LastStored(own: seq<Event>, x: nat, c: Byte): Byte
    decreases |own|
  {
    if own == [] then c
    else LastStored(own[1..], x, if own[0].Store? && own[0].a == x then own[0].b else c)
  }

  lemma {:induction false} KnownStays(t: Task, own: seq<Event>, x: nat, c: Byte)
    requires Keeps(t, own, x)
    ensures Folded(t, own, x, Known(c)).1 == Known(LastStored(own, x, c))
    decreases |own|
  {
    if own != [] {
      hide Removes, OwnTask;
      KnownStays(OwnTask(t, own[0]), own[1..], x, if own[0].Store? && own[0].a == x then own[0].b else c);
    }
  }

  // A memory: through its own loads, stores, faults, forks, execs, mappings and unmappings of
  // other pages, and through everything others do, a process reads at an address the last byte
  // it stored there.
  lemma RunRecalls(s: Sys, l: Layout, events: seq<Event>, t: Sys, q: nat, x: nat, c: Byte)
    requires Inv(s, l) && RunsTo(s, l, events, t) && HarmlessRun(s, l, events, q)
    requires q in s.tasks && s.tasks[q].live && Reads(s.vm, q, x, c)
    requires Keeps(s.tasks[q], OwnEvents(s, l, events, q), x)
    ensures Reads(t.vm, q, x, LastStored(OwnEvents(s, l, events, q), x, c)) && q in t.tasks && t.tasks[q].live
  {
    hide Inv, RunsTo, HarmlessRun, OwnEvents, Folded, Private, Keeps, LastStored, PageOf;
    RunDetermined(s, l, events, t, q, x, Known(c));
    KnownStays(s.tasks[q], OwnEvents(s, l, events, q), x, c);
  }
}
