/**
  What a process has when it starts: after a fork the bytes of its parent on the pages that an
  area reaches, after an exec the bytes of its image, and nothing else.
 */
module Births {
  import opened Addressing
  import opened Exactness
  import opened Isolation
  import opened Memory
  import opened Recall
  import opened Runs
  import opened Spaces
  import opened VirtualMemory
  import opened Wrappers

  // A process id that was never given has no page.
  lemma NobodysPages(s: Sys, l: Layout, pid: nat, n: nat)
    requires Inv(s, l) && pid >= s.nextPid
    ensures Page(pid, n) !in s.vm.pages
  {
    hide PoolOk, Counted, Owned, KernelOk, AreasOk;
    var p := Page(pid, n);
    if p in s.vm.pages {
      PlacedUnderTop(s.vm, PtOf(p));
    }
  }

  // Below every table but the kernel's there is the top-level table of its space.
  lemma PlacedUnderTop(vm: Vm, t: Table)
    requires TablesOk(vm) && t in vm.tables && t.level == 1 && t.space != KERNEL
    ensures Top(t.space) in vm.tables
  {
    assert Placed(vm, t);
    var u := Parent(t);
    assert Placed(vm, u);
    var v := Parent(u);
    assert Placed(vm, v);
    assert Placed(vm, Parent(v));
  }

  lemma NewSpaceEmpty(s: Sys, l: Layout, slot: nat, n: nat)
    requires Inv(s, l) && s.active < s.nextPid && SlotFree(s, l, slot)
    ensures NewSpace(s, l, slot).Some? ==> Page(s.nextPid, n) !in NewSpace(s, l, slot).value.pages
  {
    var p0, p, vac := Page(KERNEL, l.Alias(slot)), Page(s.nextPid, n), Vacated(s, slot);
    assert s.nextPid != KERNEL && (p in vac.pages ==> p in s.vm.pages) by { hide WellFormed, Counted, Owned, AliasesOk, KernelOk; }
    hide Inv, WellFormed, Adoptable, AddSpace, TopsSame, Vacated;
    NobodysPages(s, l, s.nextPid, n);
    SpaceForSlot(s, l, slot);
    AddSpaceTops(vac, l.Alias(slot), s.nextPid);
    var r := AddSpace(vac, l.Alias(slot), s.nextPid);
    if r.Some? {
      SameButOne(r.value.pages, vac.pages, p0, p);
    }
  }

  lemma SameButOne(a: map<Page, Pte>, b: map<Page, Pte>, p0: Page, p: Page)
    requires a - {p0} == b - {p0} && p != p0
    ensures p in a <==> p in b
  {
    assert p in a <==> p in a - {p0};
    assert p in b <==> p in b - {p0};
  }

  // --------------------------------------------------------------------- fork

  // A page of the child shows what the page of the parent shows.
  lemma CopiedHas(vm: Vm, v: Vm, parent: nat, child: nat, x: nat, cell: Cell)
    requires Has(vm, parent, x, cell) && |v.data| == |vm.data| && v.data == vm.data
    requires UserPage(parent, x) in vm.pages <==> UserPage(child, x) in v.pages
    requires UserPage(child, x) in v.pages ==> v.pages[UserPage(child, x)].frame == vm.pages[UserPage(parent, x)].frame
    ensures Has(v, child, x, cell)
  {
    hide PageOf, Private;
    match cell
    case Absent =>
    case Stale =>
      var c :| Reads(vm, parent, x, c);
      assert Reads(v, child, x, c);
    case Known(c) =>
  }

  // The child has the byte of its parent where an area of the parent reaches, and else nothing.
  lemma ForkBirth(s: Sys, l: Layout, slot: nat, x: nat, cell: Cell)
    requires Inv(s, l) && Enabled(s, l, Fork(slot)) && StepFork(s, l, slot).Some?
    requires Private(x) && Has(s.vm, s.active, x, cell)
    ensures var t := StepFork(s, l, slot).value;
            && t.active == s.nextPid && t.tasks[t.active].areas == s.tasks[s.active].areas
            && Has(t.vm, t.active, x, if InArea(s.tasks[s.active].areas, PageOf(x)) then cell else Absent)
  {
    hide Inv, WellFormed, Counted, Owned, Undisturbed, TopsSame, NewSpace, CopyAreas, Bounded, AreasOk, InUse, Has, PageOf, Private;
    ActiveInUse(s, l);
    ActiveOld(s, l);
    InUseUser(s.vm, s.active);
    NewSpaceKeeps(s, l, slot);
    NewSpaceEmpty(s, l, slot, PageOf(x));
    var v, areas := NewSpace(s, l, slot).value, s.tasks[s.active].areas;
    assert Undisturbed(s.vm, v, s.active);
    UndisturbedHas(s.vm, v, s.active, x, cell);
    CopyAreasFidelity(v, s.active, s.nextPid, areas, PageOf(x));
    CopyAreasIsolated(v, s.parents[s.nextPid := s.active], s.active, s.nextPid, areas);
    var w := CopyAreas(v, s.active, s.nextPid, areas).value;
    if InArea(areas, PageOf(x)) {
      CopiedHas(v, w, s.active, s.nextPid, x, cell);
    } else {
      NothingHas(w, s.nextPid, x);
    }
  }

  lemma NothingHas(vm: Vm, q: nat, x: nat)
    requires UserPage(q, x) !in vm.pages
    ensures Has(vm, q, x, Absent)
  {
  }

  // --------------------------------------------------------------------- exec

  // The byte of an image at an address.
  function ImageCell(image: seq<(nat, Frame)>, x: nat): Cell {
    if image == [] then Absent
    else if image[0].0 == PageOf(x) then Known(image[0].1[OffsetOf(x)])
    else ImageCell(image[1..], x)
  }

  // One page of an image: its bytes are there, and those of other pages stay.
  lemma LoadOneHas(vm: Vm, pid: nat, n: nat, fr: Frame, x: nat, cell: Cell)
    requires WellFormed(vm) && InUse(vm, pid) && n < PAGE_LIMIT && Page(pid, n) !in vm.pages
    requires Private(x) && Has(vm, pid, x, cell)
    ensures Reachable(vm, pid, n)
    ensures MapPage(vm, pid, n).Some? ==>
      var v := MapPage(vm, pid, n).value;
      && Page(pid, n) in v.pages && v.pages[Page(pid, n)].frame < |v.data|
      && var w := SetData(v, v.pages[Page(pid, n)].frame, fr);
      && WellFormed(w) && InUse(w, pid) && Has(w, pid, x, if n == PageOf(x) then Known(fr[OffsetOf(x)]) else cell)
  {
    hide WellFormed, MapPage, Reachable, Mappable, FreeFrame, PageIn, Quiet, ZeroPrefix, PageOf, Private, OffsetOf;
    UserReachable(vm, pid, n);
    MapPageEffect(vm, pid, n);
    var r := MapPage(vm, pid, n);
    if r.Some? {
      var e := r.value.pages[Page(pid, n)];
      SetDataWellFormed(r.value, e.frame, fr);
      FreeUnheld(vm, e.frame);
      OtherBytes(vm, SetData(r.value, e.frame, fr), pid, n, e, x, cell);
    }
  }

  lemma OtherBytes(vm: Vm, w: Vm, pid: nat, n: nat, e: Pte, x: nat, cell: Cell)
    requires w.pages == vm.pages[Page(pid, n) := e] && |w.data| == |vm.data| && Has(vm, pid, x, cell)
    requires forall q {:trigger vm.pages[q]} :: q in vm.pages ==> vm.pages[q].frame != e.frame
    requires forall g :: 0 <= g < |vm.data| && g != e.frame ==> w.data[g] == vm.data[g]
    ensures n != PageOf(x) ==> Has(w, pid, x, cell)
  {
    hide PageOf, Private, OffsetOf;
    if n != PageOf(x) {
      match cell
      case Absent =>
      case Stale =>
        var c :| Reads(vm, pid, x, c);
        assert Reads(w, pid, x, c);
      case Known(c) =>
    }
  }

  lemma {:induction false} ImageHas(vm: Vm, pid: nat, image: seq<(nat, Frame)>, x: nat, cell: Cell)
    requires WellFormed(vm) && InUse(vm, pid) && ImageOk(image) && Private(x) && Has(vm, pid, x, cell)
    ensures LoadImage(vm, pid, image).Some? ==>
      Has(LoadImage(vm, pid, image).value, pid, x, if cell.Absent? then ImageCell(image, x) else cell)
    decreases |image|
  {
    hide WellFormed, MapPage, Reachable, Has, PageOf, Private, InUse, OffsetOf;
    if image != [] {
      var (n, fr) := image[0];
      if Page(pid, n) in vm.pages {
        MappedHas(vm, pid, x, cell);
        ImageHas(vm, pid, image[1..], x, cell);
      } else {
        LoadOneHas(vm, pid, n, fr, x, cell);
        AbsentHas(vm, pid, x, cell);
        var r := MapPage(vm, pid, n);
        if r.Some? {
          var w := SetData(r.value, r.value.pages[Page(pid, n)].frame, fr);
          ImageHas(w, pid, image[1..], x, if n == PageOf(x) then Known(fr[OffsetOf(x)]) else cell);
        }
      }
    }
  }

  lemma MappedHas(vm: Vm, q: nat, x: nat, cell: Cell)
    requires Has(vm, q, x, cell)
    ensures UserPage(q, x) in vm.pages ==> !cell.Absent?
  {
  }

  lemma AbsentHas(vm: Vm, q: nat, x: nat, cell: Cell)
    requires Has(vm, q, x, cell)
    ensures UserPage(q, x) !in vm.pages ==> cell.Absent?
  {
  }

  // The new process has exactly the bytes of its image.
  lemma ExecBirth(s: Sys, l: Layout, slot: nat, areas: seq<Vma>, heapTop: nat, image: seq<(nat, Frame)>, x: nat)
    requires Inv(s, l) && Enabled(s, l, Exec(slot, areas, heapTop, image)) && Private(x)
    requires StepExec(s, l, slot, areas, heapTop, image).Some?
    ensures var t := StepExec(s, l, slot, areas, heapTop, image).value;
            t.active == s.nextPid && Has(t.vm, t.active, x, ImageCell(image, x))
  {
    hide Inv, WellFormed, Counted, Owned, Undisturbed, TopsSame, NewSpace, LoadImage, AreasOk, InUse, ImageOk, Has, PageOf, Private;
    ActiveOld(s, l);
    NewSpaceKeeps(s, l, slot);
    NewSpaceEmpty(s, l, slot, PageOf(x));
    var v := NewSpace(s, l, slot).value;
    NothingHas(v, s.nextPid, x);
    ImageHas(v, s.nextPid, image, x, Absent);
  }
}
