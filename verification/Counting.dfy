/**
  Reference counts through fork, faults and exit: a count is never below the number of
  page entries that hold the frame.
 */
module Counting {
  import opened Addressing
  import opened FrameAllocator
  import opened Memory
  import opened Spaces
  import opened VirtualMemory

  // The pages of `space` from `a` up to `b` that show frame `f`.
  ghost function ToCopy(vm: Vm, space: nat, a: nat, b: nat, f: nat): set<nat> {
    set n | a <= n < b && Page(space, n) in vm.pages && vm.pages[Page(space, n)].frame == f
  }

  // Counts run ahead of the page entries by the copies still to be made.
  ghost predicate CountedWith(vm: Vm, space: nat, a: nat, b: nat) {
    forall f {:trigger Holders(vm.pages, f)} :: vm.base <= f < vm.base + |vm.alloc.refs| ==>
      |Holders(vm.pages, f)| + |ToCopy(vm, space, a, b, f)| <= RefCount(vm, f)
  }

  lemma ToCopyUp(vm: Vm, space: nat, a: nat, b: nat, f: nat)
    requires a <= b
    ensures |ToCopy(vm, space, a, b + 1, f)| == |ToCopy(vm, space, a, b, f)| +
      (if Page(space, b) in vm.pages && vm.pages[Page(space, b)].frame == f then 1 else 0)
  {
    var s := ToCopy(vm, space, a, b, f);
    assert b !in s;
    if Page(space, b) in vm.pages && vm.pages[Page(space, b)].frame == f {
      assert ToCopy(vm, space, a, b + 1, f) == s + {b};
    } else {
      assert ToCopy(vm, space, a, b + 1, f) == s;
    }
  }

  lemma ToCopyDown(vm: Vm, space: nat, a: nat, b: nat, f: nat)
    requires a < b
    ensures |ToCopy(vm, space, a + 1, b, f)| == |ToCopy(vm, space, a, b, f)| -
      (if Page(space, a) in vm.pages && vm.pages[Page(space, a)].frame == f then 1 else 0)
  {
    var s := ToCopy(vm, space, a, b, f);
    if Page(space, a) in vm.pages && vm.pages[Page(space, a)].frame == f {
      assert a in s;
      assert ToCopy(vm, space, a + 1, b, f) == s - {a};
    } else {
      assert ToCopy(vm, space, a + 1, b, f) == s;
    }
  }

  lemma ToCopySame(vm: Vm, v: Vm, space: nat, a: nat, b: nat, f: nat)
    requires forall n {:trigger Page(space, n)} ::
               && (Page(space, n) in vm.pages <==> Page(space, n) in v.pages)
               && (Page(space, n) in vm.pages ==> vm.pages[Page(space, n)] == v.pages[Page(space, n)])
    ensures ToCopy(vm, space, a, b, f) == ToCopy(v, space, a, b, f)
  {
  }

  lemma {:induction false} IncPagesCounted(vm: Vm, space: nat, a0: nat, a: nat, b: nat)
    requires WellFormed(vm) && a0 <= a && CountedWith(vm, space, a0, a)
    ensures CountedWith(IncPages(vm, space, a, b), space, a0, if a < b then b else a)
    decreases b - a
  {
    hide WellFormed, CountedWith, FreeFrame, Frames.Inc;
    if a < b {
      if Page(space, a) !in vm.pages {
        IncStep(vm, vm, space, a0, a, 0);
        IncPagesCounted(vm, space, a0, a + 1, b);
      } else {
        var f := vm.pages[Page(space, a)].frame;
        PageFrame(vm, Page(space, a));
        RefWellFormed(vm, f);
        IncStep(vm, IncRef(vm, f), space, a0, a, f);
        IncPagesCounted(IncRef(vm, f), space, a0, a + 1, b);
      }
    }
  }

  lemma IncStep(vm: Vm, v: Vm, space: nat, a0: nat, a: nat, f: nat)
    requires a0 <= a && CountedWith(vm, space, a0, a)
    requires if Page(space, a) in vm.pages
      then f == vm.pages[Page(space, a)].frame && vm.base <= f < vm.base + |vm.alloc.refs| && v == IncRef(vm, f)
      else v == vm
    ensures CountedWith(v, space, a0, a + 1)
  {
    forall g {:trigger Holders(v.pages, g)} | v.base <= g < v.base + |v.alloc.refs|
      ensures |Holders(v.pages, g)| + |ToCopy(v, space, a0, a + 1, g)| <= RefCount(v, g)
    {
      assert |Holders(vm.pages, g)| + |ToCopy(vm, space, a0, a, g)| <= RefCount(vm, g);
      ToCopyUp(vm, space, a0, a, g);
      ToCopySame(vm, v, space, a0, a + 1, g);
    }
  }

  lemma CowStep(vm: Vm, v: Vm, parent: nat, child: nat, a: nat, b: nat)
    requires parent != child && a < b && CountedWith(vm, parent, a, b)
    requires Page(parent, a) in vm.pages
    requires Mapped(vm, v, Page(child, a), Pte(vm.pages[Page(parent, a)].frame, false))
    ensures CountedWith(v, parent, a + 1, b)
  {
    forall g {:trigger Holders(v.pages, g)} | v.base <= g < v.base + |v.alloc.refs|
      ensures |Holders(v.pages, g)| + |ToCopy(v, parent, a + 1, b, g)| <= RefCount(v, g)
    {
      assert |Holders(vm.pages, g)| + |ToCopy(vm, parent, a, b, g)| <= RefCount(vm, g);
      assert v.alloc.refs[g - v.base] >= vm.alloc.refs[g - vm.base];
      ToCopyDown(vm, parent, a, b, g);
      ToCopySame(vm, v, parent, a + 1, b, g);
      var e := Pte(vm.pages[Page(parent, a)].frame, false);
      if Page(child, a) in vm.pages {
        HoldersReplace(vm.pages, Page(child, a), e, g);
      } else {
        HoldersInsert(vm.pages, Page(child, a), e, g);
      }
    }
  }

  lemma {:induction false} CowPagesCounted(vm: Vm, parent: nat, child: nat, a: nat, b: nat)
    requires WellFormed(vm) && InUse(vm, child) && parent != KERNEL && b <= PAGE_LIMIT
    requires parent != child && CountedWith(vm, parent, a, b)
    ensures CowPages(vm, parent, child, a, b).Some? ==> Counted(CowPages(vm, parent, child, a, b).value)
    decreases b - a
  {
    hide WellFormed, Mapped, MapCow, Mappable, Reachable, PageIn, Quiet;
    if a >= b {
      NothingToCopy(vm, parent, a, b);
    } else if Page(parent, a) !in vm.pages {
      SkipStep(vm, parent, a, b);
      CowPagesCounted(vm, parent, child, a + 1, b);
    } else {
      var f := vm.pages[Page(parent, a)].frame;
      UserReachable(vm, child, a);
      UserMappable(vm, Page(parent, a));
      MapCowEffect(vm, child, a, f);
      var r := MapCow(vm, child, a, f);
      if r.Some? {
        CowStep(vm, r.value, parent, child, a, b);
        KeepsInUse(vm, r.value, Page(child, a), Pte(f, false), child);
        CowPagesCounted(r.value, parent, child, a + 1, b);
      }
    }
  }

  lemma KeepsInUse(vm: Vm, v: Vm, p: Page, e: Pte, space: nat)
    requires Mapped(vm, v, p, e) && InUse(vm, space)
    ensures InUse(v, space)
  {
  }

  lemma NothingToCopy(vm: Vm, space: nat, a: nat, b: nat)
    requires CountedWith(vm, space, a, b)
    ensures Counted(vm)
  {
    forall f {:trigger Holders(vm.pages, f)} | vm.base <= f < vm.base + |vm.alloc.refs|
      ensures |Holders(vm.pages, f)| <= RefCount(vm, f)
    {
      assert |Holders(vm.pages, f)| + |ToCopy(vm, space, a, b, f)| <= RefCount(vm, f);
    }
  }

  lemma SkipStep(vm: Vm, space: nat, a: nat, b: nat)
    requires a < b && CountedWith(vm, space, a, b) && Page(space, a) !in vm.pages
    ensures CountedWith(vm, space, a + 1, b)
  {
    forall f {:trigger Holders(vm.pages, f)} | vm.base <= f < vm.base + |vm.alloc.refs|
      ensures |Holders(vm.pages, f)| + |ToCopy(vm, space, a + 1, b, f)| <= RefCount(vm, f)
    {
      assert |Holders(vm.pages, f)| + |ToCopy(vm, space, a, b, f)| <= RefCount(vm, f);
      ToCopyDown(vm, space, a, b, f);
    }
  }

  lemma StartCounting(vm: Vm, space: nat, a: nat)
    requires Counted(vm)
    ensures CountedWith(vm, space, a, a)
  {
    forall f {:trigger Holders(vm.pages, f)} | vm.base <= f < vm.base + |vm.alloc.refs|
      ensures |Holders(vm.pages, f)| + |ToCopy(vm, space, a, a, f)| <= RefCount(vm, f)
    {
      assert ToCopy(vm, space, a, a, f) == {};
    }
  }

  // Fork: however the areas overlap, counts stay above the page entries.
  lemma {:induction false} CopyAreasCounted(vm: Vm, parent: nat, child: nat, areas: seq<Vma>)
    requires WellFormed(vm) && InUse(vm, child) && parent != KERNEL && Bounded(areas)
    requires parent != child && Counted(vm)
    ensures CopyAreas(vm, parent, child, areas).Some? ==> Counted(CopyAreas(vm, parent, child, areas).value)
    decreases |areas|
  {
    hide WellFormed, Counted, CowPages, IncPages, CountedWith, Bounded;
    if areas != [] {
      BoundedTail(areas);
      var a, b := AreaFirst(areas[0]), AreaLimit(areas[0]);
      StartCounting(vm, parent, a);
      IncPagesCounted(vm, parent, a, a, b);
      var v := IncPages(vm, parent, a, b);
      if a < b {
        CowPagesCounted(v, parent, child, a, b);
      } else {
        CowPagesNone(v, parent, child, a, b);
      }
      var r := CowPages(v, parent, child, a, b);
      if r.Some? {
        CopyAreasCounted(r.value, parent, child, areas[1..]);
      }
    }
  }

  lemma BoundedTail(areas: seq<Vma>)
    requires Bounded(areas) && areas != []
    ensures Bounded(areas[1..]) && AreaLimit(areas[0]) <= PAGE_LIMIT
  {
  }

  lemma CowPagesNone(vm: Vm, parent: nat, child: nat, a: nat, b: nat)
    requires WellFormed(vm) && InUse(vm, child) && parent != KERNEL && b <= PAGE_LIMIT
    requires a >= b && CountedWith(vm, parent, a, a)
    ensures CowPages(vm, parent, child, a, b).Some? ==> Counted(CowPages(vm, parent, child, a, b).value)
  {
    NothingToCopy(vm, parent, a, a);
  }

  // A page that gets a frame from the free list.
  lemma FreshCounted(vm: Vm, v: Vm, p: Page, e: Pte)
    requires WellFormed(vm) && Counted(vm) && Mapped(vm, v, p, e) && p !in vm.pages
    requires FreeFrame(vm, e.frame) && vm.base < e.frame < vm.base + |vm.alloc.refs| && RefCount(v, e.frame) == 1
    ensures Counted(v)
  {
    hide WellFormed, FreeFrame;
    NotHeld(vm, e.frame);
    forall g {:trigger Holders(v.pages, g)} | v.base <= g < v.base + |v.alloc.refs|
      ensures |Holders(v.pages, g)| <= RefCount(v, g)
    {
      assert |Holders(vm.pages, g)| <= RefCount(vm, g);
      assert v.alloc.refs[g - v.base] >= vm.alloc.refs[g - vm.base];
      HoldersInsert(vm.pages, p, e, g);
    }
  }

  lemma SameCounted(vm: Vm, v: Vm)
    requires Counted(vm) && v.pages == vm.pages && v.alloc == vm.alloc && v.base == vm.base
    ensures Counted(v)
  {
    assert forall g {:trigger Holders(v.pages, g)} :: v.base <= g < v.base + |v.alloc.refs| ==>
             |Holders(vm.pages, g)| <= RefCount(vm, g);
  }

  lemma AddSpaceCounted(vm: Vm, alias: nat, pid: nat)
    requires WellFormed(vm) && Counted(vm) && Adoptable(vm, alias, pid)
    ensures AddSpace(vm, alias, pid).Some? ==> Counted(AddSpace(vm, alias, pid).value)
  {
    hide WellFormed, Counted, MapPage, Reachable, Mappable, FreeFrame, KernelOnly, PageIn, ZeroPrefix, Quiet;
    MappedAlias(vm, alias, pid);
    var r := MapPage(vm, KERNEL, alias);
    var p := Page(KERNEL, alias);
    if r.Some? {
      var v := r.value;
      if p in vm.pages {
        MapPagePresent(vm, KERNEL, alias);
        QuietCounted(vm, v);
      } else {
        MapPageEffect(vm, KERNEL, alias);
        FreshCounted(vm, v, p, v.pages[p]);
      }
      SameCounted(v, AddSpace(vm, alias, pid).value);
    }
  }

  lemma AccessCounted(vm: Vm, space: nat, areas: seq<Vma>, a: nat, write: bool)
    requires WellFormed(vm) && InUse(vm, space) && Private(a) && Counted(vm)
    ensures Access(vm, space, areas, a, write).Some? ==> Counted(Access(vm, space, areas, a, write).value)
  {
    hide WellFormed, Counted, MapPage, Reachable, Mappable, FreeFrame, PageIn, ZeroPrefix, Quiet, Split, Covered;
    PrivateReachable(vm, space, a);
    var p := UserPage(space, a);
    if p in vm.pages {
      SplitCounted(vm, p);
    } else {
      MapPageEffect(vm, space, PageOf(a));
      var r := MapPage(vm, space, PageOf(a));
      if r.Some? {
        FreshCounted(vm, r.value, p, r.value.pages[p]);
      }
    }
  }
}
