/**
  Conservation: which frames fork followed by exit gives back.

  Every frame of the pool is free, a table, held by a page entry, or lost.  Operations
  move frames between the first three; a tidy child loses none.
 */
module Conservation {
  import opened Counting
  import opened Exactness
  import opened FrameAllocator
  import opened Memory
  import opened Spaces
  import opened VirtualMemory

  ghost predicate Held(vm: Vm, f: nat) {
    exists p :: p in vm.pages && vm.pages[p].frame == f
  }

  // In the pool, not free, and of no use to anybody.
  ghost predicate Lost(vm: Vm, b: nat) {
    b < |vm.alloc.refs| && b !in vm.alloc.free && !IsTable(vm, vm.base + b) && !Held(vm, vm.base + b)
  }

  // The same frames are lost.
  ghost predicate KeepsLost(vm: Vm, v: Vm) {
    forall b: nat {:trigger Lost(v, b)} {:trigger Lost(vm, b)} :: Lost(v, b) <==> Lost(vm, b)
  }

  lemma KeepsLostTransitive(vm: Vm, v: Vm, w: Vm)
    requires KeepsLost(vm, v) && KeepsLost(v, w)
    ensures KeepsLost(vm, w)
  {
    hide Lost;
    forall b: nat {:trigger Lost(w, b)}
      ensures Lost(w, b) <==> Lost(vm, b)
    {
      assert Lost(v, b) <==> Lost(w, b);
    }
  }

  lemma KeepsLostSelf(vm: Vm)
    ensures KeepsLost(vm, vm)
  {
  }

  lemma SameLost(vm: Vm, v: Vm)
    requires v.base == vm.base && v.alloc.free == vm.alloc.free && |v.alloc.refs| == |vm.alloc.refs|
    requires v.tables == vm.tables && v.pages == vm.pages
    ensures KeepsLost(vm, v)
  {
  }

  // Frames change hands, and one frame goes from the free list to a table or a page.
  ghost predicate Moves(vm: Vm, v: Vm, f: nat) {
    && v.base == vm.base && |v.alloc.refs| == |vm.alloc.refs|
    && (forall b: nat {:trigger b in v.alloc.free} :: b in v.alloc.free <==> b in vm.alloc.free && vm.base + b != f)
    && (forall x: nat {:trigger Held(v, x)} {:trigger IsTable(v, x)} :: x != f ==>
          (IsTable(v, x) || Held(v, x) <==> IsTable(vm, x) || Held(vm, x)))
    && FreeFrame(vm, f) && (IsTable(v, f) || Held(v, f))
  }

  lemma MovesLost(vm: Vm, v: Vm, f: nat)
    requires Moves(vm, v, f)
    ensures KeepsLost(vm, v)
  {
    hide IsTable, Held;
    forall b: nat {:trigger Lost(v, b)}
      ensures Lost(v, b) <==> Lost(vm, b)
    {
      assert b in v.alloc.free <==> b in vm.alloc.free && vm.base + b != f;
      assert Held(v, vm.base + b) || !Held(v, vm.base + b);
      if vm.base + b == f {
        assert b == f - vm.base;
      }
    }
  }

  lemma RestOfFree(free: seq<int>, b: int)
    requires |free| > 0 && free[0] == b
    requires forall i, j :: 0 <= i < j < |free| ==> free[i] != free[j]
    ensures forall x: nat {:trigger x in free[1..]} :: x in free[1..] <==> x in free && x != b
  {
    assert free == [free[0]] + free[1..];
  }

  lemma AddTableLost(vm: Vm, t: Table)
    requires WellFormed(vm) && !vm.alloc.Exhausted() && t !in vm.tables
    ensures vm.alloc.Valid() && KeepsLost(vm, AddTable(vm, t))
  {
    TakenMappable(vm);
    hide WellFormed, Mappable;
    var v, f := AddTable(vm, t), NextFrame(vm);
    RestOfFree(vm.alloc.free, vm.alloc.free[0]);
    TablesAfterAdd(vm, v, t, f);
    SameHeld(vm, v);
    assert Moves(vm, v, f);
    MovesLost(vm, v, f);
  }

  lemma TablesAfterAdd(vm: Vm, v: Vm, t: Table, f: nat)
    requires t !in vm.tables && v.tables == vm.tables[t := f]
    ensures forall g: nat {:trigger IsTable(v, g)} :: IsTable(v, g) <==> IsTable(vm, g) || g == f
  {
    forall g: nat {:trigger IsTable(v, g)}
      ensures IsTable(v, g) <==> IsTable(vm, g) || g == f
    {
      if IsTable(vm, g) {
        var u :| u in vm.tables && vm.tables[u] == g;
        assert u in v.tables && v.tables[u] == g;
      }
      assert t in v.tables && v.tables[t] == f;
    }
  }

  lemma SameHeld(vm: Vm, v: Vm)
    requires v.pages == vm.pages
    ensures forall g: nat {:trigger Held(v, g)} :: Held(v, g) <==> Held(vm, g)
  {
  }

  lemma SameTableFrames(vm: Vm, v: Vm)
    requires v.tables == vm.tables
    ensures forall g: nat {:trigger IsTable(v, g)} :: IsTable(v, g) <==> IsTable(vm, g)
  {
  }

  lemma EnsureTableLost(vm: Vm, t: Table)
    requires WellFormed(vm) && Placed(vm, t)
    ensures EnsureTable(vm, t).Some? ==> KeepsLost(vm, EnsureTable(vm, t).value)
  {
    hide WellFormed, KeepsLost, AddTable, Placed;
    KeepsLostSelf(vm);
    if t !in vm.tables && !vm.alloc.Exhausted() {
      AddTableLost(vm, t);
    }
  }

  lemma PathLost(vm: Vm, space: nat, n: nat)
    requires WellFormed(vm) && Reachable(vm, space, n)
    ensures EnsurePath(vm, space, n).Some? ==> KeepsLost(vm, EnsurePath(vm, space, n).value)
  {
    hide WellFormed, Placed, Pdpt, Pd, Pt, EnsureTable, Reachable, KeepsLost;
    PathPlaced(vm, space, n);
    EnsureTableLost(vm, Pdpt(space, n));
    var v3 := EnsureTable(vm, Pdpt(space, n));
    if v3.Some? {
      PathPlaced(v3.value, space, n);
      EnsureTableLost(v3.value, Pd(space, n));
      var v2 := EnsureTable(v3.value, Pd(space, n));
      if v2.Some? {
        PathPlaced(v2.value, space, n);
        EnsureTableLost(v2.value, Pt(space, n));
        var v1 := EnsureTable(v2.value, Pt(space, n));
        KeepsLostTransitive(vm, v3.value, v2.value);
        if v1.Some? {
          KeepsLostTransitive(vm, v2.value, v1.value);
        }
      }
    }
  }

  lemma HeldAfterSet(vm: Vm, v: Vm, p: Page, e: Pte)
    requires p !in vm.pages && v.pages == vm.pages[p := e]
    ensures forall g: nat {:trigger Held(v, g)} :: Held(v, g) <==> Held(vm, g) || g == e.frame
  {
    forall g: nat {:trigger Held(v, g)}
      ensures Held(v, g) <==> Held(vm, g) || g == e.frame
    {
      if Held(vm, g) {
        var q :| q in vm.pages && vm.pages[q].frame == g;
        assert q in v.pages && v.pages[q].frame == g;
      }
      assert p in v.pages && v.pages[p] == e;
    }
  }

  // A page gets the next free frame, beyond the tables already there.
  lemma MapTakenLost(vm: Vm, p: Page, content: Frame)
    requires WellFormed(vm) && !vm.alloc.Exhausted() && p !in vm.pages
    ensures vm.alloc.Valid() && NextFrame(vm) < |vm.data| && KeepsLost(vm, MapTaken(vm, p, content))
  {
    TakenMappable(vm);
    hide WellFormed, Mappable;
    var v, f := MapTaken(vm, p, content), NextFrame(vm);
    RestOfFree(vm.alloc.free, vm.alloc.free[0]);
    HeldAfterSet(vm, v, p, Pte(f, true));
    SameTableFrames(vm, v);
    assert Moves(vm, v, f);
    MovesLost(vm, v, f);
  }

  lemma MapPageLost(vm: Vm, space: nat, n: nat)
    requires WellFormed(vm) && Reachable(vm, space, n)
    ensures MapPage(vm, space, n).Some? ==> KeepsLost(vm, MapPage(vm, space, n).value)
  {
    hide WellFormed, Reachable, EnsurePath, KeepsLost, MapTaken, ZeroPrefix, Frames.Valid;
    PathLost(vm, space, n);
    var r := EnsurePath(vm, space, n);
    if r.Some? {
      var v, p := r.value, PageIn(space, n);
      if p in v.pages {
        PageFrame(v, p);
        SameLost(v, MapPage(vm, space, n).value);
        KeepsLostTransitive(vm, v, MapPage(vm, space, n).value);
      } else if !v.alloc.Exhausted() {
        TakenMappable(v);
        MapTakenLost(v, p, ZeroPrefix(v.data[NextFrame(v)], CLEARED));
        KeepsLostTransitive(vm, v, MapPage(vm, space, n).value);
      }
    }
  }

  // Showing a frame that is held already.
  lemma SharedLost(vm: Vm, v: Vm, p: Page, e: Pte)
    requires v.base == vm.base && v.alloc == vm.alloc && v.tables == vm.tables
    requires p !in vm.pages && v.pages == vm.pages[p := e] && Held(vm, e.frame)
    ensures KeepsLost(vm, v)
  {
    HeldAfterSet(vm, v, p, e);
    SameTableFrames(vm, v);
    hide Held, IsTable;
  }

  lemma MapCowLost(vm: Vm, space: nat, n: nat, f: nat)
    requires WellFormed(vm) && Reachable(vm, space, n) && Mappable(vm, f)
    requires Held(vm, f) && PageIn(space, n) !in vm.pages
    ensures MapCow(vm, space, n, f).Some? ==> KeepsLost(vm, MapCow(vm, space, n, f).value)
  {
    hide WellFormed, Reachable, EnsurePath, KeepsLost, Mappable, Held;
    PathLost(vm, space, n);
    var r := EnsurePath(vm, space, n);
    if r.Some? {
      SameHeld(vm, r.value);
      SharedLost(r.value, MapCow(vm, space, n, f).value, PageIn(space, n), Pte(f, false));
      KeepsLostTransitive(vm, r.value, MapCow(vm, space, n, f).value);
    }
  }

  // A split loses nothing as long as someone else holds the shared frame.
  lemma SplitLost(vm: Vm, p: Page, q: Page)
    requires WellFormed(vm) && p in vm.pages && q in vm.pages && q != p && vm.pages[q].frame == vm.pages[p].frame
    ensures Split(vm, p).Some? ==> KeepsLost(vm, Split(vm, p).value)
  {
    hide WellFormed, Split, Mappable;
    SplitEffect(vm, p);
    PageFrame(vm, p);
    if Split(vm, p).Some? {
      var v := Split(vm, p).value;
      var f := v.pages[p].frame;
      RestOfFree(vm.alloc.free, f - vm.base);
      assert v.alloc.free == vm.alloc.free[1..];
      SameTableFrames(vm, v);
      HeldAfterSplit(vm, v, p, q, f);
      assert Moves(vm, v, f);
      MovesLost(vm, v, f);
    }
  }

  lemma HeldAfterSplit(vm: Vm, v: Vm, p: Page, q: Page, f: nat)
    requires p in vm.pages && q in vm.pages && q != p && vm.pages[q].frame == vm.pages[p].frame
    requires v.pages == vm.pages[p := Pte(f, true)]
    ensures forall g: nat {:trigger Held(v, g)} :: Held(v, g) <==> Held(vm, g) || g == f
  {
    forall g: nat {:trigger Held(v, g)}
      ensures Held(v, g) <==> Held(vm, g) || g == f
    {
      if Held(vm, g) {
        var x :| x in vm.pages && vm.pages[x].frame == g;
        var y := if x == p then q else x;
        assert y in v.pages && v.pages[y].frame == g;
      }
      assert p in v.pages && v.pages[p].frame == f;
    }
  }

  // With exact counts the last holder gives the frame back.
  lemma UnmapLost(vm: Vm, p: Page)
    requires WellFormed(vm) && Counted(vm) && AllExact(vm) && p in vm.pages
    ensures vm.base <= vm.pages[p].frame < vm.base + |vm.alloc.refs| <= |vm.data|
    ensures KeepsLost(vm, Unmap(vm, p))
  {
    hide WellFormed, Unmap, Counted, IsTable, Held, Lost, KeepsLost, FreeFrame;
    HeldCount(vm, p);
    UnmapEffect(vm, p);
    var v, f := Unmap(vm, p), vm.pages[p].frame;
    assert p in Holders(vm.pages, f);
    assert |Holders(vm.pages, f)| == RefCount(vm, f);
    HoldersRemove(vm.pages, p, f);
    UnmapMoves(vm, v, p);
  }

  lemma UnmapMoves(vm: Vm, v: Vm, p: Page)
    requires p in vm.pages && vm.pages[p].frame >= vm.base
    requires v.tables == vm.tables && v.base == vm.base && v.pages == vm.pages - {p}
    requires |v.alloc.refs| == |vm.alloc.refs|
    requires var f := vm.pages[p].frame;
      if Holders(v.pages, f) == {} then v.alloc.free == [f - vm.base] + vm.alloc.free
      else v.alloc.free == vm.alloc.free
    ensures KeepsLost(vm, v)
  {
    hide IsTable, Held;
    SameTableFrames(vm, v);
    HeldAfterUnmap(vm, v, p);
    HeldAt(vm, p);
    forall b: nat {:trigger Lost(v, b)}
      ensures Lost(v, b) <==> Lost(vm, b)
    {
      assert b in v.alloc.free <==>
        b in vm.alloc.free || (Holders(v.pages, vm.pages[p].frame) == {} && vm.base + b == vm.pages[p].frame);
      assert Held(v, vm.base + b) || !Held(v, vm.base + b);
    }
  }

  lemma HeldAt(vm: Vm, p: Page)
    requires p in vm.pages
    ensures Held(vm, vm.pages[p].frame)
  {
  }

  lemma HeldAfterUnmap(vm: Vm, v: Vm, p: Page)
    requires p in vm.pages && v.pages == vm.pages - {p}
    ensures forall g: nat {:trigger Held(v, g)} :: g != vm.pages[p].frame ==> (Held(v, g) <==> Held(vm, g))
    ensures Held(v, vm.pages[p].frame) <==> Holders(v.pages, vm.pages[p].frame) != {}
  {
    forall g: nat {:trigger Held(v, g)} | g != vm.pages[p].frame
      ensures Held(v, g) <==> Held(vm, g)
    {
      if Held(vm, g) {
        var x :| x in vm.pages && vm.pages[x].frame == g;
        assert x in v.pages && v.pages[x].frame == g;
      }
    }
    if Held(v, vm.pages[p].frame) {
      var x :| x in v.pages && v.pages[x].frame == vm.pages[p].frame;
      assert x in Holders(v.pages, vm.pages[p].frame);
    }
    if Holders(v.pages, vm.pages[p].frame) != {} {
      var x :| x in Holders(v.pages, vm.pages[p].frame);
    }
  }

  // ------------------------------------------------------------ whole operations

  lemma AdoptLost(vm: Vm, f: nat, pid: nat)
    requires Held(vm, f) && Top(pid) !in vm.tables
    ensures KeepsLost(vm, Adopt(vm, f, pid))
  {
    var v := Adopt(vm, f, pid);
    TablesAfterAdd(vm, v, Top(pid), f);
    SameHeld(vm, v);
    hide IsTable, Held;
    forall b: nat {:trigger Lost(v, b)}
      ensures Lost(v, b) <==> Lost(vm, b)
    {
      assert IsTable(v, vm.base + b) || !IsTable(v, vm.base + b);
      assert Held(v, vm.base + b) || !Held(v, vm.base + b);
    }
  }

  lemma AddSpaceLost(vm: Vm, alias: nat, pid: nat)
    requires WellFormed(vm) && Adoptable(vm, alias, pid)
    ensures AddSpace(vm, alias, pid).Some? ==> KeepsLost(vm, AddSpace(vm, alias, pid).value)
  {
    hide WellFormed, MapPage, Reachable, Mappable, FreeFrame, KernelOnly, PageIn, Quiet, KeepsLost, Adoptable;
    MappedAlias(vm, alias, pid);
    MapPageLost(vm, KERNEL, alias);
    var r := MapPage(vm, KERNEL, alias);
    if r.Some? {
      var v, f := r.value, r.value.pages[Page(KERNEL, alias)].frame;
      HeldAt(v, Page(KERNEL, alias));
      AdoptLost(v, f, pid);
      var w := AddSpace(vm, alias, pid).value;
      SameLost(Adopt(v, f, pid), w);
      KeepsLostTransitive(vm, v, Adopt(v, f, pid));
      KeepsLostTransitive(vm, Adopt(v, f, pid), w);
    }
  }

  lemma IncLost(vm: Vm, space: nat, a: nat, b: nat)
    requires WellFormed(vm)
    ensures IncPages(vm, space, a, b).alloc.free == vm.alloc.free && KeepsLost(vm, IncPages(vm, space, a, b))
    decreases b - a
  {
    hide PoolOk, TablesOk, PagesOk, KeepsLost;
    IncFree(vm, space, a, b);
    SameLost(vm, IncPages(vm, space, a, b));
  }

  lemma {:induction false} IncFree(vm: Vm, space: nat, a: nat, b: nat)
    requires WellFormed(vm)
    ensures IncPages(vm, space, a, b).alloc.free == vm.alloc.free
    decreases b - a
  {
    hide PoolOk, TablesOk, PagesOk;
    if a < b {
      if Page(space, a) !in vm.pages {
        IncFree(vm, space, a + 1, b);
      } else {
        PageFrame(vm, Page(space, a));
        RefWellFormed(vm, vm.pages[Page(space, a)].frame);
        IncFree(IncRef(vm, vm.pages[Page(space, a)].frame), space, a + 1, b);
      }
    }
  }

  lemma {:induction false} CowPagesLost(vm: Vm, parent: nat, child: nat, a: nat, b: nat)
    requires WellFormed(vm) && InUse(vm, child) && parent != KERNEL && b <= PAGE_LIMIT && parent != child
    requires forall n :: a <= n < b ==> Page(child, n) !in vm.pages
    ensures CowPages(vm, parent, child, a, b).Some? ==> KeepsLost(vm, CowPages(vm, parent, child, a, b).value)
    decreases b - a
  {
    hide WellFormed, Mapped, MapCow, Mappable, Reachable, PageIn, Quiet, KeepsLost;
    if a >= b {
      KeepsLostSelf(vm);
    } else if Page(parent, a) !in vm.pages {
      CowPagesLost(vm, parent, child, a + 1, b);
    } else {
      var f := vm.pages[Page(parent, a)].frame;
      UserReachable(vm, child, a);
      UserMappable(vm, Page(parent, a));
      HeldAt(vm, Page(parent, a));
      MapCowEffect(vm, child, a, f);
      MapCowLost(vm, child, a, f);
      var r := MapCow(vm, child, a, f);
      if r.Some? {
        KeepsInUse(vm, r.value, Page(child, a), Pte(f, false), child);
        MappedPages(vm, r.value, Page(child, a), Pte(f, false));
        CowPagesLost(r.value, parent, child, a + 1, b);
        if CowPages(r.value, parent, child, a + 1, b).Some? {
          KeepsLostTransitive(vm, r.value, CowPages(r.value, parent, child, a + 1, b).value);
        }
      }
    }
  }

  lemma {:induction false} CopyAreasLost(vm: Vm, parent: nat, child: nat, areas: seq<Vma>)
    requires WellFormed(vm) && InUse(vm, child) && parent != KERNEL && Bounded(areas) && parent != child
    requires AllExact(vm) && PageDisjoint(areas)
    requires forall n: nat {:trigger Page(child, n)} :: InArea(areas, n) ==> Page(child, n) !in vm.pages
    ensures CopyAreas(vm, parent, child, areas).Some? ==> KeepsLost(vm, CopyAreas(vm, parent, child, areas).value)
    decreases |areas|
  {
    hide WellFormed, CowPages, IncPages, Bounded, AllExact, KeepsLost, ExactWith;
    if areas == [] {
      KeepsLostSelf(vm);
    } else {
      BoundedTail(areas);
      var a, b := AreaFirst(areas[0]), AreaLimit(areas[0]);
      var v := IncPages(vm, parent, a, b);
      IncLost(vm, parent, a, b);
      FirstAreaFree(vm, child, areas);
      CowPagesLost(v, parent, child, a, b);
      ExactStart(vm, parent, a);
      IncPagesExact(vm, parent, a, a, b);
      if a >= b {
        ExactEnd(v, parent, a, a);
        EmptyRange(v, parent, a, b);
      }
      CowPagesExact(v, parent, child, a, b);
      var r := CowPages(v, parent, child, a, b);
      if r.Some? {
        KeepsLostTransitive(vm, v, r.value);
        OtherAreasFree(vm, r.value, child, areas);
        CopyAreasLost(r.value, parent, child, areas[1..]);
        if CopyAreas(r.value, parent, child, areas[1..]).Some? {
          KeepsLostTransitive(vm, r.value, CopyAreas(r.value, parent, child, areas[1..]).value);
        }
      }
    }
  }

  lemma {:induction false} UnmapPagesLost(vm: Vm, space: nat, a: nat, b: nat)
    requires WellFormed(vm) && Counted(vm) && space != KERNEL && AllExact(vm)
    ensures KeepsLost(vm, UnmapPages(vm, space, a, b))
    decreases b - a
  {
    hide WellFormed, Counted, Unmap, UnmapPages, AllExact, KeepsLost;
    var p := Page(space, a);
    if a >= b {
      UnmapPagesEnd(vm, space, a, b);
      KeepsLostSelf(vm);
    } else {
      UnmapPagesStep(vm, space, a, b);
      if p !in vm.pages {
        UnmapPagesLost(vm, space, a + 1, b);
      } else {
        UnmapExact(vm, p);
        UnmapLost(vm, p);
        UnmapPagesLost(Unmap(vm, p), space, a + 1, b);
        KeepsLostTransitive(vm, Unmap(vm, p), UnmapPages(Unmap(vm, p), space, a + 1, b));
      }
    }
  }

  lemma {:induction false} ReleaseLost(vm: Vm, space: nat, areas: seq<Vma>)
    requires WellFormed(vm) && Counted(vm) && space != KERNEL && AllExact(vm)
    ensures KeepsLost(vm, ReleaseAreas(vm, space, areas))
    decreases |areas|
  {
    hide WellFormed, Counted, UnmapPages, AllExact, KeepsLost;
    if areas == [] {
      KeepsLostSelf(vm);
    } else {
      var a, b := AreaFirst(areas[0]), UnmapLimit(areas[0]);
      UnmapPagesExact(vm, space, a, b);
      UnmapPagesLost(vm, space, a, b);
      var v := UnmapPages(vm, space, a, b);
      ReleaseLost(v, space, areas[1..]);
      KeepsLostTransitive(vm, v, ReleaseAreas(v, space, areas[1..]));
    }
  }
}
