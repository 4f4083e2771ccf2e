/**
  How a program image comes into a new address space: the kernel writes its bytes through
  user addresses, and a fault maps each page at the first of them.
 */
module Loader {
  import opened Addressing
  import opened Coupling
  import opened FrameAllocator
  import opened Hardware
  import opened Memory
  import opened Paging
  import opened Runs
  import opened Spaces
  import opened TaskMemory
  import opened VirtualMemory
  import opened VmaLists
  import opened Wrappers

  // The bytes of one page, written one by one.
  method FillPage(m: Mmu, addr: nat, fr: Frame)
    requires m.Valid() && addr % 4096 == 0 && Private(addr) && UserPage(m.space, addr) in m.vm.pages
    modifies m`ram, m`vm
    ensures m.Valid() && old(m.vm).pages[UserPage(m.space, addr)].frame < |old(m.vm).data|
    ensures m.vm == SetData(old(m.vm), old(m.vm).pages[UserPage(m.space, addr)].frame, fr)
  {
    hide Private, UserPage, PageIn, Reachable, PageOf, Coupled, Translate, OffsetOf, IsTable, Spliced;
    hide PhysicalMemoryManager.Valid, PhysicalMemoryManager.View;
    PrivateAddress(m.ram, m.vm, m.space, addr);
    SavedFrom(m.ram, m.vm, m.space, addr);
    ghost var f, ram0 := m.vm.pages[UserPage(m.space, addr)].frame, m.ram;
    ghost var was: Frame := ram0[f];
    SplicedEnds(fr, was);
    assert ram0[f := was] == ram0;
    for i := 0 to 4096
      modifies m`ram
      invariant m.ram == ram0[f := Spliced(fr, was, i)]
    {
      SetDataCoupled(ram0, m.vm, f, Spliced(fr, was, i));
      TranslateByte(m.ram, SetData(m.vm, f, Spliced(fr, was, i)), m.space, addr, i);
      SplicedStep(fr, was, i);
      m.WriteByte(addr + i, fr[i]);
    }
    SetDataCoupled(ram0, m.vm, f, fr);
    m.vm := SetData(m.vm, f, fr);
  }

  // None of these pages is there.
  ghost predicate Unmapped(vm: Vm, pid: nat, image: seq<(nat, Frame)>) {
    forall i {:trigger image[i]} :: 0 <= i < |image| ==> Page(pid, image[i].0) !in vm.pages
  }

  // False when memory is exhausted.
  method LoadPages(m: Mmu, image: seq<(nat, Frame)>) returns (ok: bool)
    requires m.Valid() && ImageOk(image) && WellFormed(m.vm) && InUse(m.vm, m.space) && Unmapped(m.vm, m.space, image)
    modifies m`ram, m`vm, m.frames, m.frames.pageList
    ensures ok <==> LoadImage(old(m.vm), m.space, image).Some?
    ensures ok ==> m.Valid() && LoadImage(old(m.vm), m.space, image) == Some(m.vm)
  {
    hide Mmu.Valid, WellFormed, InUse, ImageOk, Unmapped, LoadImage, Private, PageOf, Canonical, MapPage, Reachable, PageIn;
    ghost var vm0 := m.vm;
    assert image[0..] == image;
    for k := 0 to |image|
      invariant m.Valid() && WellFormed(m.vm) && InUse(m.vm, m.space) && ImageOk(image[k..])
      invariant Unmapped(m.vm, m.space, image[k..])
      invariant LoadImage(m.vm, m.space, image[k..]) == LoadImage(vm0, m.space, image)
    {
      var (n, fr) := image[k];
      ghost var v, rest := m.vm, image[k..];
      assert rest[0] == image[k] && rest[1..] == image[k + 1..];
      PageBegins(v, m.space, rest);
      LoadsOne(v, m.space, rest);
      ok := KernelFault(m, 4096 * n);
      if !ok {
        return false;
      }
      FillPage(m, 4096 * n, fr);
    }
    assert image[|image|..] == [];
    LoadsNone(m.vm, m.space);
    ok := true;
  }

  // The first page of an image can be touched.
  lemma PageBegins(vm: Vm, pid: nat, image: seq<(nat, Frame)>)
    requires ImageOk(image) && image != [] && WellFormed(vm) && InUse(vm, pid) && Unmapped(vm, pid, image)
    ensures var (n, fr) := image[0];
            && Canonical(4096 * n) && Private(4096 * n) && PageOf(4096 * n) == n && Reachable(vm, pid, n)
            && PageIn(pid, n) == Page(pid, n) == UserPage(pid, 4096 * n) && Page(pid, n) !in vm.pages
  {
  }

  // What loading it leaves to be loaded.
  lemma LoadsOne(vm: Vm, pid: nat, image: seq<(nat, Frame)>)
    requires ImageOk(image) && image != [] && WellFormed(vm) && InUse(vm, pid) && Unmapped(vm, pid, image)
    ensures Reachable(vm, pid, image[0].0) && PageIn(pid, image[0].0) == Page(pid, image[0].0)
    ensures MapPage(vm, pid, image[0].0).None? ==> LoadImage(vm, pid, image).None?
    ensures MapPage(vm, pid, image[0].0).Some? ==>
      var v, p := MapPage(vm, pid, image[0].0).value, Page(pid, image[0].0);
      && p in v.pages && v.pages[p].frame < |v.data|
      && var w := SetData(v, v.pages[p].frame, image[0].1);
      && WellFormed(w) && InUse(w, pid) && ImageOk(image[1..]) && Unmapped(w, pid, image[1..])
      && LoadImage(w, pid, image[1..]) == LoadImage(vm, pid, image)
  {
    hide WellFormed, MapPage, Reachable, Mappable, FreeFrame, PageIn, Quiet, ZeroPrefix;
    var (n, fr) := image[0];
    UserReachable(vm, pid, n);
    MapPageEffect(vm, pid, n);
    var r := MapPage(vm, pid, n);
    if r.Some? {
      SetDataWellFormed(r.value, r.value.pages[Page(pid, n)].frame, fr);
    }
    assert forall i {:trigger image[1..][i]} :: 0 <= i < |image[1..]| ==> image[1..][i] == image[i + 1];
  }

  lemma LoadsNone(vm: Vm, pid: nat)
    requires WellFormed(vm) && InUse(vm, pid)
    ensures LoadImage(vm, pid, []) == Some(vm)
  {
    hide WellFormed, InUse;
  }

  // The areas of a program, appended one by one.
  method AddAreas(heap: VmaHeap, task: nat, areas: seq<Vma>)
    requires heap.Valid() && task < heap.heads.Length == |heap.shape.lists|
    modifies heap`nodes, heap`recycleList, heap`shape, heap.heads
    ensures heap.Valid() && |heap.shape.lists| == |old(heap.shape.lists)|
    ensures forall i :: 0 <= i < |heap.shape.lists| ==>
              heap.Areas(i) == if i == task then old(heap.Areas(i)) + areas else old(heap.Areas(i))
  {
    hide VmaHeap.Valid, AreasOf;
    for k := 0 to |areas|
      invariant heap.Valid() && |heap.shape.lists| == |old(heap.shape.lists)| == heap.heads.Length
      invariant forall i :: 0 <= i < |heap.shape.lists| ==>
                  heap.Areas(i) == if i == task then old(heap.Areas(i)) + areas[..k] else old(heap.Areas(i))
    {
      heap.AddArea(task, areas[k].start, areas[k].end);
      assert areas[..k + 1] == areas[..k] + [areas[k]];
      assert areas[k] == Vma(areas[k].start, areas[k].end);
    }
    assert areas[..|areas|] == areas;
  }
}
