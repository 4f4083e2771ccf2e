/**
  The states that runs start from: memory as the boot code leaves it, the kernel's table,
  and the first process.
 */
module Booting {
  import opened Addressing
  import opened Exactness
  import opened FrameAllocator
  import opened Hardware
  import Isolation
  import opened Memory
  import opened Runs
  import opened Spaces
  import TaskMemory
  import opened TidyRuns
  import opened VirtualMemory
  import opened Wrappers

  // Only the kernel's table, in a frame outside the pool's free list; nothing mapped.
  function BareVm(base: nat, alloc: Frames, kernelTop: nat, data: seq<Frame>): Vm {
    Vm(base, alloc, map[KERNEL_TOP := kernelTop], map[], data)
  }

  function BareSys(vm: Vm): Sys {
    Sys(vm, map[], map[], map[], 0, 1)
  }

  // What freelist leaves behind: every free block with count 0, nothing counted below 0.
  predicate FreshPool(base: nat, alloc: Frames, kernelTop: nat, data: seq<Frame>) {
    && alloc.Valid() && base + |alloc.refs| <= |data| <= 0x100_0000_0000
    && (forall b :: 0 <= b < |alloc.refs| ==> alloc.refs[b] == 0)
    && kernelTop < |data| && kernelTop - base !in alloc.free
  }

  lemma BareInv(base: nat, alloc: Frames, kernelTop: nat, data: seq<Frame>, l: Layout)
    requires FreshPool(base, alloc, kernelTop, data) && l.Valid()
    ensures Inv(BareSys(BareVm(base, alloc, kernelTop, data)), l)
  {
    var vm := BareVm(base, alloc, kernelTop, data);
    assert PoolOk(vm) && TablesOk(vm) && PagesOk(vm);
    forall f {:trigger Holders(vm.pages, f)} | vm.base <= f < vm.base + |vm.alloc.refs|
      ensures |Holders(vm.pages, f)| <= RefCount(vm, f)
    {
      assert Holders(vm.pages, f) == {};
    }
  }

  // The first process, as init_proc and the loader make it.
  ghost function FirstSys(s: Sys, l: Layout, areas: seq<Vma>, heapTop: nat, image: seq<(nat, Frame)>): Option<Sys>
    requires Inv(s, l) && SlotFree(s, l, 0) && s.active < s.nextPid && ImageOk(image)
  {
    hide WellFormed, Adoptable;
    SpaceForSlot(s, l, 0);
    var v :- NewSpace(s, l, 0);
    Isolation.AddSpaceTops(Vacated(s, 0), l.Alias(0), s.nextPid);
    var w :- LoadImage(v, s.nextPid, image);
    Some(Started(s, w, Task(0, areas, heapTop, true)))
  }

  lemma FirstInv(s: Sys, l: Layout, areas: seq<Vma>, heapTop: nat, image: seq<(nat, Frame)>)
    requires Inv(s, l) && SlotFree(s, l, 0) && s.active < s.nextPid && ImageOk(image)
    requires AreasOk(areas) && heapTop > 0 && heapTop % 4096 == 0
    ensures FirstSys(s, l, areas, heapTop, image).Some? ==> Inv(FirstSys(s, l, areas, heapTop, image).value, l)
    ensures FirstSys(s, l, areas, heapTop, image).Some? ==> Running(FirstSys(s, l, areas, heapTop, image).value)
  {
    hide WellFormed, Counted, Isolation.Owned, Isolation.Undisturbed, Isolation.TopsSame, NewSpace, AreasOk, ImageOk, LoadImage, AliasesOk, KernelOk, InUse;
    NewSpaceKeeps(s, l, 0);
    var n := NewSpace(s, l, 0);
    if n.Some? {
      ImageKeeps(n.value, s.parents[s.nextPid := s.active], s.nextPid, image);
      var r := LoadImage(n.value, s.nextPid, image);
      if r.Some? {
        StartedInv(s, l, 0, r.value, Task(0, areas, heapTop, true));
      }
    }
  }

  // -------------------------------------------------------------------- tidiness

  // Both are tidy, and so is everything that tidy runs make of them.
  lemma BareTidy(base: nat, alloc: Frames, kernelTop: nat, data: seq<Frame>)
    ensures Tidy(BareSys(BareVm(base, alloc, kernelTop, data)))
  {
    var vm := BareVm(base, alloc, kernelTop, data);
    assert forall f {:trigger Holders(vm.pages, f)} :: Holders(vm.pages, f) == {};
  }

  lemma FirstTidy(s: Sys, l: Layout, areas: seq<Vma>, heapTop: nat, image: seq<(nat, Frame)>)
    requires Inv(s, l) && Tidy(s) && SlotFree(s, l, 0) && s.active < s.nextPid && ImageOk(image)
    requires TidyTask(Task(0, areas, heapTop, true))
    requires forall i {:trigger image[i]} :: 0 <= i < |image| ==> InArea(areas, image[i].0)
    ensures FirstSys(s, l, areas, heapTop, image).Some? ==> Tidy(FirstSys(s, l, areas, heapTop, image).value)
  {
    hide WellFormed, Counted, Isolation.Owned, AllExact, AliasesOk, KernelOk, NewSpace, LoadImage, InArea, InUse, ImageOk;
    hide Isolation.Undisturbed;
    NewSpaceKeeps(s, l, 0);
    NewSpaceExact(s, l, 0);
    var n := NewSpace(s, l, 0);
    if n.Some? {
      LoadImageExact(n.value, s.nextPid, image);
    }
  }

  // ------------------------------------------------------------- enough memory

  // With ten free frames the first process starts, and every run from there keeps Inv.
  lemma BootRuns(base: nat, alloc: Frames, kernelTop: nat, data: seq<Frame>, l: Layout, heapTop: nat)
    requires FreshPool(base, alloc, kernelTop, data) && l.Valid() && l.slots > 0 && |alloc.free| >= 10
    requires heapTop > 0 && heapTop % 4096 == 0
    ensures var s := BareSys(BareVm(base, alloc, kernelTop, data));
            && Inv(s, l) && SlotFree(s, l, 0)
            && var t := FirstSys(s, l, [], heapTop, []);
               t.Some? && Inv(t.value, l) && Running(t.value)
  {
    var s := BareSys(BareVm(base, alloc, kernelTop, data));
    BareInv(base, alloc, kernelTop, data, l);
    FirstInv(s, l, [], heapTop, []);
    FirstSpace(s, l);
  }

  lemma FirstSpace(s: Sys, l: Layout)
    requires Inv(s, l) && SlotFree(s, l, 0) && s == BareSys(s.vm) && l.slots > 0 && |s.vm.alloc.free| >= 10
    ensures NewSpace(s, l, 0).Some?
  {
    SpaceForSlot(s, l, 0);
    assert Vacated(s, 0) == s.vm;
    MapSucceeds(s.vm, l.Alias(0));
    TaskMemory.AddSpaceUnfold(s.vm, l.Alias(0), s.nextPid);
  }

  lemma MapSucceeds(vm: Vm, n: nat)
    requires WellFormed(vm) && n / 512 / 512 / 512 == KERNEL_SLOT && |vm.alloc.free| >= 10
    ensures Reachable(vm, KERNEL, n) && MapPage(vm, KERNEL, n).Some?
  {
    hide WellFormed, MapPage;
    MapPageIff(vm, KERNEL, n);
  }

  // Memory that is all zero but for the two words of a top-level table.
  const ZEROES: Frame := seq(4096, _ => 0)

  function BootRam(frames: nat, kernelTop: nat, top: nat): (ram: Ram)
    requires top < frames
    ensures |ram| == frames
  {
    seq(frames, _ => ZEROES)[top := SetWord(SetWord(ZEROES, SELF_SLOT, TableWord(top)), KERNEL_SLOT, TableWord(kernelTop))]
  }

  lemma {:induction false} LoadZeroes(o: nat, n: nat)
    requires o + n <= 4096
    ensures Memory.Load(ZEROES, o, n) == 0
    decreases n
  {
    if n > 0 {
      LoadZeroes(o + 1, n - 1);
    }
  }

  lemma BootWords(frames: nat, kernelTop: nat, top: nat, i: nat)
    requires top < frames <= 0x100_0000_0000 && kernelTop < frames && i < 512
    ensures var ram := BootRam(frames, kernelTop, top);
            && (top != kernelTop ==> WordAt(ram[kernelTop], i) == 0)
            && WordAt(ram[top], i) == if i == SELF_SLOT then TableWord(top) else if i == KERNEL_SLOT then TableWord(kernelTop) else 0
  {
    hide SetWord, Memory.Load;
    var half := SetWord(ZEROES, SELF_SLOT, TableWord(top));
    LoadZeroes(8 * i, 8);
    WordAtSetWord(ZEROES, SELF_SLOT, TableWord(top), i);
    WordAtSetWord(half, KERNEL_SLOT, TableWord(kernelTop), i);
  }

  // This memory shows the kernel's table and the top-level table of a process: there is
  // something to walk.
  lemma BootCoupled(base: nat, alloc: Frames, kernelTop: nat, top: nat, frames: nat)
    requires top < frames && FreshPool(base, alloc, kernelTop, BootRam(frames, kernelTop, top))
    requires top != kernelTop && top - base !in alloc.free
    ensures var ram := BootRam(frames, kernelTop, top);
            Coupled(ram, Vm(base, alloc, map[KERNEL_TOP := kernelTop, Top(1) := top], map[], ram))
  {
    var ram := BootRam(frames, kernelTop, top);
    var vm := Vm(base, alloc, map[KERNEL_TOP := kernelTop, Top(1) := top], map[], ram);
    TwoTables(vm, kernelTop, top);
    hide WellFormed, BootRam;
    forall t, i {:trigger Expected(vm, t, i)} | t in vm.tables && 1 <= t.level <= 4 && 0 <= i < 512 && vm.tables[t] < |ram|
      ensures WordAt(ram[vm.tables[t]], i) == Expected(vm, t, i)
    {
      TwoExpected(vm, kernelTop, top, t, i);
      BootWords(frames, kernelTop, top, i);
    }
  }

  // A pool of so many frames, with the kernel's table and one more frame behind it.
  function SmallPool(n: nat): Frames {
    Frames(seq(n, i => i + 1), seq(n + 1, _ => 0))
  }

  lemma SmallBoot(n: nat)
    requires n < 0x1_0000_0000
    ensures FreshPool(0, SmallPool(n), n + 1, BootRam(n + 3, n + 1, n + 2)) && n + 2 !in SmallPool(n).free
  {
  }

  lemma TwoTables(vm: Vm, kernelTop: nat, top: nat)
    requires FreshPool(vm.base, vm.alloc, kernelTop, vm.data) && top < |vm.data| && top != kernelTop && top - vm.base !in vm.alloc.free
    requires vm.tables == map[KERNEL_TOP := kernelTop, Top(1) := top] && vm.pages == map[]
    ensures WellFormed(vm)
  {
    assert PoolOk(vm) && PagesOk(vm);
    assert vm.tables[KERNEL_TOP] == kernelTop && vm.tables[Top(1)] == top;
  }

  lemma TwoExpected(vm: Vm, kernelTop: nat, top: nat, t: Table, i: nat)
    requires vm.tables == map[KERNEL_TOP := kernelTop, Top(1) := top] && vm.pages == map[] && t in vm.tables && i < 512
    ensures 1 <= t.level <= 4 && (t == KERNEL_TOP || t == Top(1))
    ensures Expected(vm, t, i) == if t == Top(1) && i == SELF_SLOT then TableWord(top)
                                  else if t == Top(1) && i == KERNEL_SLOT then TableWord(kernelTop) else 0
  {
    assert Child(Top(1), KERNEL_SLOT) == KERNEL_TOP;
  }
}
