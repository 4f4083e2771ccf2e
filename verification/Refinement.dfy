/**
  The operations of sys/paging.c and of the fork as the processor sees them: what the walk
  finds afterwards, for every address and every space.
 */
module Refinement {
  import opened Addressing
  import opened Exactness
  import opened Hardware
  import Isolation
  import opened Paging
  import opened Spaces
  import opened VirtualMemory
  import opened Wrappers

  // What a walk in a space finds at an address that does not go through entry 510.
  lemma Seen(ram: Ram, vm: Vm, space: nat, va: nat)
    requires Coupled(ram, vm) && Top(space) in vm.tables && Canonical(va) && HwPml4(va) != SELF_SLOT
    ensures vm.tables[Top(space)] < |ram|
    ensures Translate(ram, vm.tables[Top(space)], va) == AsHit(Entry(vm, PageIn(space, PageOf(va))))
  {
    TranslateIs(ram, vm, space, va);
  }

  // Memory before and after an operation on one page: every other translation, in every
  // space, is the same.
  lemma OthersSeeSame(ram: Ram, vm: Vm, ram2: Ram, v: Vm, p: Page, space: nat, va: nat)
    requires Coupled(ram, vm) && Coupled(ram2, v) && v.pages - {p} == vm.pages - {p}
    requires Top(space) in vm.tables && Top(space) in v.tables && Canonical(va) && HwPml4(va) != SELF_SLOT
    requires PageIn(space, PageOf(va)) != p
    ensures vm.tables[Top(space)] < |ram| && v.tables[Top(space)] < |ram2|
    ensures Translate(ram2, v.tables[Top(space)], va) == Translate(ram, vm.tables[Top(space)], va)
  {
    hide Coupled, Translate, Canonical, HwPml4, PageOf;
    Seen(ram, vm, space, va);
    Seen(ram2, v, space, va);
    var q := PageIn(space, PageOf(va));
    assert q in v.pages <==> q in v.pages - {p};
    assert q in vm.pages <==> q in vm.pages - {p};
    assert q in vm.pages ==> (v.pages - {p})[q] == (vm.pages - {p})[q];
  }

  // map_phyaddr: the page asked for is present, writable and a user page, in the frame it had
  // or else in one that nobody had; no other translation changes, in any space.
  lemma MapSeen(ram: Ram, vm: Vm, ram2: Ram, space: nat, va: nat, other: nat, vb: nat)
    requires Coupled(ram, vm) && Top(space) in vm.tables && Reachable(vm, space, PageOf(va)) && Canonical(va) && HwPml4(va) != SELF_SLOT
    requires MapPage(vm, space, PageOf(va)).Some? && Coupled(ram2, MapPage(vm, space, PageOf(va)).value)
    requires PageIn(space, PageOf(va)) in vm.pages ==> Mappable(vm, vm.pages[PageIn(space, PageOf(va))].frame)
    requires Top(other) in vm.tables && Canonical(vb) && HwPml4(vb) != SELF_SLOT
    ensures var v, p := MapPage(vm, space, PageOf(va)).value, PageIn(space, PageOf(va));
            && Top(space) in v.tables && v.tables[Top(space)] < |ram2| && Top(other) in v.tables && v.tables[Top(other)] < |ram2|
            && vm.tables[Top(other)] < |ram| && p in v.pages
            && Translate(ram2, v.tables[Top(space)], va) == Some(Hit(v.pages[p].frame, v.pages[p].writable, true))
            && (p in vm.pages ==> v.pages[p] == vm.pages[p])
            && (p !in vm.pages ==> v.pages[p].writable && FreeFrame(vm, v.pages[p].frame))
            && (PageIn(other, PageOf(vb)) != p ==>
                  Translate(ram2, v.tables[Top(other)], vb) == Translate(ram, vm.tables[Top(other)], vb))
  {
    hide TablesCoupled, DataCoupled, WellFormed, Translate, Canonical, HwPml4, PageOf, Reachable, MapPage, Mappable, Quiet;
    var n, p := PageOf(va), PageIn(space, PageOf(va));
    var v := MapPage(vm, space, n).value;
    MapPageTables(vm, space, n);
    if p in vm.pages {
      MapPagePresent(vm, space, n);
    } else {
      MapPageEffect(vm, space, n);
    }
    assert v.pages - {p} == vm.pages - {p};
    Seen(ram2, v, space, va);
    Seen(ram, vm, other, vb);
    Seen(ram2, v, other, vb);
    if PageIn(other, PageOf(vb)) != p {
      OthersSeeSame(ram, vm, ram2, v, p, other, vb);
    }
  }

  // set_Cow: the page asked for shows the frame given, and may not be written; no other
  // translation changes, in any space.
  lemma CowSeen(ram: Ram, vm: Vm, ram2: Ram, space: nat, va: nat, f: nat, other: nat, vb: nat)
    requires Coupled(ram, vm) && Top(space) in vm.tables && Reachable(vm, space, PageOf(va)) && Canonical(va) && HwPml4(va) != SELF_SLOT
    requires Mappable(vm, f)
    requires MapCow(vm, space, PageOf(va), f).Some? && Coupled(ram2, MapCow(vm, space, PageOf(va), f).value)
    requires Top(other) in vm.tables && Canonical(vb) && HwPml4(vb) != SELF_SLOT
    ensures var v, p := MapCow(vm, space, PageOf(va), f).value, PageIn(space, PageOf(va));
            && Top(space) in v.tables && v.tables[Top(space)] < |ram2| && Top(other) in v.tables && v.tables[Top(other)] < |ram2|
            && vm.tables[Top(other)] < |ram|
            && Translate(ram2, v.tables[Top(space)], va) == Some(Hit(f, false, true))
            && (PageIn(other, PageOf(vb)) != p ==>
                  Translate(ram2, v.tables[Top(other)], vb) == Translate(ram, vm.tables[Top(other)], vb))
  {
    hide TablesCoupled, DataCoupled, WellFormed, Translate, Canonical, HwPml4, PageOf, Reachable, MapCow, Mappable, Quiet;
    var n, p := PageOf(va), PageIn(space, PageOf(va));
    var v := MapCow(vm, space, n, f).value;
    MapCowEffect(vm, space, n, f);
    assert v.pages - {p} == vm.pages - {p};
    Seen(ram2, v, space, va);
    Seen(ram, vm, other, vb);
    Seen(ram2, v, other, vb);
    if PageIn(other, PageOf(vb)) != p {
      OthersSeeSame(ram, vm, ram2, v, p, other, vb);
    }
  }

  // unmap_phyaddr: the page asked for is gone; no other translation changes, in any space.
  lemma UnmapSeen(ram: Ram, vm: Vm, ram2: Ram, space: nat, va: nat, other: nat, vb: nat)
    requires Coupled(ram, vm) && Counted(vm) && Top(space) in vm.tables && Canonical(va) && HwPml4(va) != SELF_SLOT
    requires PageIn(space, PageOf(va)) in vm.pages
    requires vm.base <= vm.pages[PageIn(space, PageOf(va))].frame < vm.base + |vm.alloc.refs| <= |vm.data|
    requires Coupled(ram2, Unmap(vm, PageIn(space, PageOf(va))))
    requires Top(other) in vm.tables && Canonical(vb) && HwPml4(vb) != SELF_SLOT
    ensures var p := PageIn(space, PageOf(va)); var v := Unmap(vm, p);
            && v.tables == vm.tables && vm.tables[Top(space)] < |ram2| && vm.tables[Top(other)] < |ram2| && vm.tables[Top(other)] < |ram|
            && Translate(ram2, vm.tables[Top(space)], va) == None
            && (PageIn(other, PageOf(vb)) != p ==>
                  Translate(ram2, vm.tables[Top(other)], vb) == Translate(ram, vm.tables[Top(other)], vb))
  {
    hide TablesCoupled, DataCoupled, WellFormed, Translate, Canonical, HwPml4, PageOf, Unmap, Counted;
    var p := PageIn(space, PageOf(va));
    var v := Unmap(vm, p);
    HeldCount(vm, p);
    UnmapEffect(vm, p);
    Seen(ram2, v, space, va);
    Seen(ram, vm, other, vb);
    Seen(ram2, v, other, vb);
    if PageIn(other, PageOf(vb)) != p {
      assert v.pages - {p} == vm.pages - {p};
      OthersSeeSame(ram, vm, ram2, v, p, other, vb);
    }
  }

  // copy_vma: at every user address the child finds the frame of its parent, read-only, where
  // an area of the parent reaches and the parent has a page, and nothing elsewhere; the
  // parent finds what it found before.
  lemma ForkSeen(ram: Ram, vm: Vm, ram2: Ram, parent: nat, child: nat, areas: seq<Vma>, a: nat)
    requires Coupled(ram, vm) && InUse(vm, child) && InUse(vm, parent) && parent != child && Bounded(areas) && Private(a)
    requires UserPage(child, a) !in vm.pages
    requires CopyAreas(vm, parent, child, areas).Some? && Coupled(ram2, CopyAreas(vm, parent, child, areas).value)
    ensures var v := CopyAreas(vm, parent, child, areas).value;
            && Top(child) in v.tables && Top(parent) in v.tables && v.tables[Top(child)] < |ram2| && v.tables[Top(parent)] < |ram2| && vm.tables[Top(parent)] < |ram|
            && Translate(ram2, v.tables[Top(parent)], a) == Translate(ram, vm.tables[Top(parent)], a)
            && Translate(ram2, v.tables[Top(child)], a)
                 == if InArea(areas, PageOf(a)) && UserPage(parent, a) in vm.pages
                    then Some(Hit(vm.pages[UserPage(parent, a)].frame, false, true)) else None
  {
    hide TablesCoupled, DataCoupled, WellFormed, Translate, Canonical, HwPml4, PageOf, CopyAreas, InArea, Bounded, Reachable;
    var v := CopyAreas(vm, parent, child, areas).value;
    Isolation.CopyAreasTops(vm, parent, child, areas);
    PrivateAddress(ram, vm, parent, a);
    PrivateAddress(ram2, v, parent, a);
    PrivateAddress(ram2, v, child, a);
    CopyAreasFidelity(vm, parent, child, areas, PageOf(a));
    Seen(ram, vm, parent, a);
    Seen(ram2, v, parent, a);
    Seen(ram2, v, child, a);
  }
}
