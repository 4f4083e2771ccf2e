/**
  When counts are exact, and what fork followed by exit gives back.

  A count is the number of page entries holding the frame as long as areas do not
  overlap in pages and exit unmaps all a process has.  A frame can also be lost: in use,
  counted zero, held by nobody.  Only a copy-on-write split by the last holder does that.
 */
module Exactness {
  import opened Counting
  import opened Spaces
  import opened VirtualMemory
  import opened Wrappers

  // Exact, while pages of `space` from `a` up to `b` are counted but not yet copied.
  ghost predicate ExactWith(vm: Vm, space: nat, a: nat, b: nat) {
    forall f {:trigger Holders(vm.pages, f)} :: vm.base <= f < vm.base + |vm.alloc.refs| && Holders(vm.pages, f) != {} ==>
      |Holders(vm.pages, f)| + |ToCopy(vm, space, a, b, f)| == RefCount(vm, f)
  }

  // The counts of mapped frames are the numbers of their holders.
  ghost predicate AllExact(vm: Vm) {
    forall f {:trigger Holders(vm.pages, f)} :: vm.base <= f < vm.base + |vm.alloc.refs| && Holders(vm.pages, f) != {} ==>
      |Holders(vm.pages, f)| == RefCount(vm, f)
  }

  lemma ExactStart(vm: Vm, space: nat, a: nat)
    requires AllExact(vm)
    ensures ExactWith(vm, space, a, a)
  {
    forall f {:trigger Holders(vm.pages, f)} | vm.base <= f < vm.base + |vm.alloc.refs| && Holders(vm.pages, f) != {}
      ensures |Holders(vm.pages, f)| + |ToCopy(vm, space, a, a, f)| == RefCount(vm, f)
    {
      assert ToCopy(vm, space, a, a, f) == {};
    }
  }

  lemma ExactEnd(vm: Vm, space: nat, a: nat, b: nat)
    requires ExactWith(vm, space, a, b) && a >= b
    ensures AllExact(vm)
  {
    forall f {:trigger Holders(vm.pages, f)} | vm.base <= f < vm.base + |vm.alloc.refs| && Holders(vm.pages, f) != {}
      ensures |Holders(vm.pages, f)| == RefCount(vm, f)
    {
      assert ToCopy(vm, space, a, b, f) == {};
    }
  }

  lemma {:induction false} IncPagesExact(vm: Vm, space: nat, a0: nat, a: nat, b: nat)
    requires WellFormed(vm) && a0 <= a && ExactWith(vm, space, a0, a)
    ensures ExactWith(IncPages(vm, space, a, b), space, a0, if a < b then b else a)
    decreases b - a
  {
    if a < b {
      if Page(space, a) !in vm.pages {
        IncExact(vm, vm, space, a0, a, 0);
        IncPagesExact(vm, space, a0, a + 1, b);
      } else {
        var f := vm.pages[Page(space, a)].frame;
        PageFrame(vm, Page(space, a));
        RefWellFormed(vm, f);
        IncExact(vm, IncRef(vm, f), space, a0, a, f);
        IncPagesExact(IncRef(vm, f), space, a0, a + 1, b);
      }
    }
  }

  lemma IncExact(vm: Vm, v: Vm, space: nat, a0: nat, a: nat, f: nat)
    requires a0 <= a && ExactWith(vm, space, a0, a)
    requires if Page(space, a) in vm.pages
      then f == vm.pages[Page(space, a)].frame && vm.base <= f < vm.base + |vm.alloc.refs| && v == IncRef(vm, f)
      else v == vm
    ensures ExactWith(v, space, a0, a + 1)
  {
    forall g {:trigger Holders(v.pages, g)} | v.base <= g < v.base + |v.alloc.refs| && Holders(v.pages, g) != {}
      ensures |Holders(v.pages, g)| + |ToCopy(v, space, a0, a + 1, g)| == RefCount(v, g)
    {
      assert |Holders(vm.pages, g)| + |ToCopy(vm, space, a0, a, g)| == RefCount(vm, g);
      ToCopyUp(vm, space, a0, a, g);
      ToCopySame(vm, v, space, a0, a + 1, g);
    }
  }

  lemma CowExact(vm: Vm, v: Vm, parent: nat, child: nat, a: nat, b: nat)
    requires WellFormed(vm)
    requires parent != child && a < b && ExactWith(vm, parent, a, b)
    requires Page(parent, a) in vm.pages && Page(child, a) !in vm.pages
    requires Mapped(vm, v, Page(child, a), Pte(vm.pages[Page(parent, a)].frame, false))
    ensures ExactWith(v, parent, a + 1, b)
  {
    hide WellFormed, FreeFrame;
    HeldInUse(vm);
    forall g {:trigger Holders(v.pages, g)} | v.base <= g < v.base + |v.alloc.refs| && Holders(v.pages, g) != {}
      ensures |Holders(v.pages, g)| + |ToCopy(v, parent, a + 1, b, g)| == RefCount(v, g)
    {
      var e := Pte(vm.pages[Page(parent, a)].frame, false);
      HoldersInsert(vm.pages, Page(child, a), e, g);
      assert g == e.frame ==> Page(parent, a) in Holders(vm.pages, g);
      assert |Holders(vm.pages, g)| + |ToCopy(vm, parent, a, b, g)| == RefCount(vm, g);
      assert v.alloc.refs[g - v.base] == vm.alloc.refs[g - vm.base];
      ToCopyDown(vm, parent, a, b, g);
      ToCopySame(vm, v, parent, a + 1, b, g);
    }
  }

  // A held frame is in use.
  lemma HeldInUse(vm: Vm)
    requires WellFormed(vm)
    ensures forall f: nat {:trigger Holders(vm.pages, f)} :: Holders(vm.pages, f) != {} ==> f - vm.base !in vm.alloc.free
  {
    forall f: nat {:trigger Holders(vm.pages, f)} | Holders(vm.pages, f) != {}
      ensures f - vm.base !in vm.alloc.free
    {
      var p :| p in Holders(vm.pages, f);
      PageFrame(vm, p);
    }
  }

  lemma {:induction false} CowPagesExact(vm: Vm, parent: nat, child: nat, a: nat, b: nat)
    requires WellFormed(vm) && InUse(vm, child) && parent != KERNEL && b <= PAGE_LIMIT
    requires parent != child && ExactWith(vm, parent, a, b)
    requires forall n :: a <= n < b ==> Page(child, n) !in vm.pages
    ensures CowPages(vm, parent, child, a, b).Some? ==>
      && AllExact(CowPages(vm, parent, child, a, b).value)
      && OnlyAdds(vm, CowPages(vm, parent, child, a, b).value, child, a, b)
    decreases b - a
  {
    hide WellFormed, Mapped, MapCow, Mappable, Reachable, PageIn, Quiet, ExactWith, AllExact;
    if a >= b {
      ExactEnd(vm, parent, a, b);
    } else if Page(parent, a) !in vm.pages {
      ExactSkip(vm, parent, a, b);
      CowPagesExact(vm, parent, child, a + 1, b);
    } else {
      var f := vm.pages[Page(parent, a)].frame;
      UserReachable(vm, child, a);
      UserMappable(vm, Page(parent, a));
      MapCowEffect(vm, child, a, f);
      var r := MapCow(vm, child, a, f);
      if r.Some? {
        CowExact(vm, r.value, parent, child, a, b);
        KeepsInUse(vm, r.value, Page(child, a), Pte(f, false), child);
        MappedPages(vm, r.value, Page(child, a), Pte(f, false));
        CowPagesExact(r.value, parent, child, a + 1, b);
      }
    }
  }

  // Pages of `space` in a range may have appeared; everything else is as it was.
  ghost predicate OnlyAdds(vm: Vm, v: Vm, space: nat, a: nat, b: nat) {
    forall p: Page {:trigger p in v.pages} ::
      p in v.pages ==> p in vm.pages || (p.space == space && a <= p.number < b)
  }

  lemma MappedPages(vm: Vm, v: Vm, p: Page, e: Pte)
    requires Mapped(vm, v, p, e)
    ensures v.pages == vm.pages[p := e]
  {
  }

  lemma ExactSkip(vm: Vm, space: nat, a: nat, b: nat)
    requires a < b && ExactWith(vm, space, a, b) && Page(space, a) !in vm.pages
    ensures ExactWith(vm, space, a + 1, b)
  {
    forall f {:trigger Holders(vm.pages, f)} | vm.base <= f < vm.base + |vm.alloc.refs| && Holders(vm.pages, f) != {}
      ensures |Holders(vm.pages, f)| + |ToCopy(vm, space, a + 1, b, f)| == RefCount(vm, f)
    {
      assert |Holders(vm.pages, f)| + |ToCopy(vm, space, a, b, f)| == RefCount(vm, f);
      ToCopyDown(vm, space, a, b, f);
    }
  }

  // No page is reached by two areas.
  predicate PageDisjoint(areas: seq<Vma>) {
    forall i, j {:trigger areas[i], areas[j]} :: 0 <= i < j < |areas| ==>
      AreaLimit(areas[i]) <= AreaFirst(areas[j]) || AreaLimit(areas[j]) <= AreaFirst(areas[i])
      || AreaLimit(areas[i]) == 0 || AreaLimit(areas[j]) == 0
  }

  predicate InArea(areas: seq<Vma>, n: nat) {
    exists i :: 0 <= i < |areas| && AreaFirst(areas[i]) <= n < AreaLimit(areas[i])
  }

  // Fork keeps counts exact when no page belongs to two areas.
  lemma {:induction false} CopyAreasExact(vm: Vm, parent: nat, child: nat, areas: seq<Vma>)
    requires WellFormed(vm) && InUse(vm, child) && parent != KERNEL && Bounded(areas)
    requires parent != child && AllExact(vm) && PageDisjoint(areas)
    requires forall n: nat {:trigger Page(child, n)} :: InArea(areas, n) ==> Page(child, n) !in vm.pages
    ensures CopyAreas(vm, parent, child, areas).Some? ==> AllExact(CopyAreas(vm, parent, child, areas).value)
    decreases |areas|
  {
    hide WellFormed, AllExact, CowPages, IncPages, ExactWith, Bounded;
    if areas != [] {
      BoundedTail(areas);
      var a, b := AreaFirst(areas[0]), AreaLimit(areas[0]);
      ExactStart(vm, parent, a);
      IncPagesExact(vm, parent, a, a, b);
      var v := IncPages(vm, parent, a, b);
      FirstAreaFree(vm, child, areas);
      if a >= b {
        ExactEnd(v, parent, a, a);
        ExactStart(v, parent, b);
        EmptyRange(v, parent, a, b);
      }
      CowPagesExact(v, parent, child, a, b);
      var r := CowPages(v, parent, child, a, b);
      if r.Some? {
        OtherAreasFree(vm, r.value, child, areas);
        CopyAreasExact(r.value, parent, child, areas[1..]);
      }
    }
  }

  lemma EmptyRange(vm: Vm, space: nat, a: nat, b: nat)
    requires AllExact(vm) && a >= b
    ensures ExactWith(vm, space, a, b)
  {
    forall f {:trigger Holders(vm.pages, f)} | vm.base <= f < vm.base + |vm.alloc.refs| && Holders(vm.pages, f) != {}
      ensures |Holders(vm.pages, f)| + |ToCopy(vm, space, a, b, f)| == RefCount(vm, f)
    {
      assert ToCopy(vm, space, a, b, f) == {};
    }
  }

  lemma FirstAreaFree(vm: Vm, child: nat, areas: seq<Vma>)
    requires areas != []
    requires forall n: nat {:trigger Page(child, n)} :: InArea(areas, n) ==> Page(child, n) !in vm.pages
    ensures forall n :: AreaFirst(areas[0]) <= n < AreaLimit(areas[0]) ==> Page(child, n) !in vm.pages
  {
  }

  lemma OtherAreasFree(vm: Vm, v: Vm, child: nat, areas: seq<Vma>)
    requires areas != [] && PageDisjoint(areas)
    requires forall n: nat {:trigger Page(child, n)} :: InArea(areas, n) ==> Page(child, n) !in vm.pages
    requires OnlyAdds(vm, v, child, AreaFirst(areas[0]), AreaLimit(areas[0]))
    ensures PageDisjoint(areas[1..])
    ensures forall n: nat {:trigger Page(child, n)} :: InArea(areas[1..], n) ==> Page(child, n) !in v.pages
  {
    forall n: nat {:trigger Page(child, n)} | InArea(areas[1..], n)
      ensures Page(child, n) !in v.pages
    {
      var i :| 0 <= i < |areas[1..]| && AreaFirst(areas[1..][i]) <= n < AreaLimit(areas[1..][i]);
      assert areas[1..][i] == areas[i + 1];
      assert InArea(areas, n);
    }
  }

  // ----------------------------------------------------------- fork fidelity

  // What the child sees of page `n` after fork.
  ghost function CopyOf(vm: Vm, parent: nat, n: nat): Option<Pte> {
    if Page(parent, n) in vm.pages then Some(Pte(vm.pages[Page(parent, n)].frame, false)) else None
  }

  lemma {:induction false} CowPagesFidelity(vm: Vm, parent: nat, child: nat, a: nat, b: nat, n: nat)
    requires WellFormed(vm) && InUse(vm, child) && parent != KERNEL && b <= PAGE_LIMIT && parent != child
    ensures CowPages(vm, parent, child, a, b).Some? ==>
      var v := CowPages(vm, parent, child, a, b).value;
      && Entry(v, Page(parent, n)) == Entry(vm, Page(parent, n))
      && Entry(v, Page(child, n)) ==
           if a <= n < b && Page(parent, n) in vm.pages then CopyOf(vm, parent, n) else Entry(vm, Page(child, n))
    decreases b - a
  {
    hide WellFormed, Mapped, MapCow, Mappable, Reachable, PageIn, Quiet;
    if a < b {
      if Page(parent, a) !in vm.pages {
        CowPagesFidelity(vm, parent, child, a + 1, b, n);
      } else {
        var f := vm.pages[Page(parent, a)].frame;
        UserReachable(vm, child, a);
        UserMappable(vm, Page(parent, a));
        MapCowEffect(vm, child, a, f);
        var r := MapCow(vm, child, a, f);
        if r.Some? {
          KeepsInUse(vm, r.value, Page(child, a), Pte(f, false), child);
          MappedPages(vm, r.value, Page(child, a), Pte(f, false));
          CowPagesFidelity(r.value, parent, child, a + 1, b, n);
        }
      }
    }
  }

  // Fork: the child has exactly the pages of its parent that an area reaches into, in the
  // same frames, read-only; the parent keeps its own entries as they were.
  lemma {:induction false} CopyAreasFidelity(vm: Vm, parent: nat, child: nat, areas: seq<Vma>, n: nat)
    requires WellFormed(vm) && InUse(vm, child) && parent != KERNEL && Bounded(areas) && parent != child
    ensures CopyAreas(vm, parent, child, areas).Some? ==>
      var v := CopyAreas(vm, parent, child, areas).value;
      && Entry(v, Page(parent, n)) == Entry(vm, Page(parent, n))
      && Entry(v, Page(child, n)) ==
           if InArea(areas, n) && Page(parent, n) in vm.pages then CopyOf(vm, parent, n) else Entry(vm, Page(child, n))
    decreases |areas|
  {
    hide WellFormed, CowPages, IncPages, Bounded;
    if areas != [] {
      BoundedTail(areas);
      var a, b := AreaFirst(areas[0]), AreaLimit(areas[0]);
      var v := IncPages(vm, parent, a, b);
      CowPagesFidelity(v, parent, child, a, b, n);
      InAreaCons(areas, n);
      var r := CowPages(v, parent, child, a, b);
      if r.Some? {
        CopyAreasFidelity(r.value, parent, child, areas[1..], n);
      }
    }
  }

  lemma InAreaCons(areas: seq<Vma>, n: nat)
    requires areas != []
    ensures InArea(areas, n) <==> AreaFirst(areas[0]) <= n < AreaLimit(areas[0]) || InArea(areas[1..], n)
  {
    if InArea(areas, n) {
      var i :| 0 <= i < |areas| && AreaFirst(areas[i]) <= n < AreaLimit(areas[i]);
      assert i > 0 ==> areas[1..][i - 1] == areas[i];
    }
    if InArea(areas[1..], n) {
      var i :| 0 <= i < |areas[1..]| && AreaFirst(areas[1..][i]) <= n < AreaLimit(areas[1..][i]);
      assert areas[i + 1] == areas[1..][i];
    }
  }

  // ----------------------------------------------------- the other operations

  lemma FreshExact(vm: Vm, v: Vm, p: Page, e: Pte)
    requires WellFormed(vm) && AllExact(vm) && Mapped(vm, v, p, e) && p !in vm.pages
    requires FreeFrame(vm, e.frame) && vm.base < e.frame < vm.base + |vm.alloc.refs| && RefCount(v, e.frame) == 1
    ensures AllExact(v)
  {
    hide WellFormed, FreeFrame;
    NotHeld(vm, e.frame);
    HeldInUse(vm);
    forall g {:trigger Holders(v.pages, g)} | v.base <= g < v.base + |v.alloc.refs| && Holders(v.pages, g) != {}
      ensures |Holders(v.pages, g)| == RefCount(v, g)
    {
      HoldersInsert(vm.pages, p, e, g);
      if g != e.frame {
        assert |Holders(vm.pages, g)| == RefCount(vm, g);
        assert v.alloc.refs[g - v.base] == vm.alloc.refs[g - vm.base];
      }
    }
  }

  lemma SameExact(vm: Vm, v: Vm)
    requires AllExact(vm) && v.pages == vm.pages && v.alloc == vm.alloc && v.base == vm.base
    ensures AllExact(v)
  {
    assert forall g {:trigger Holders(v.pages, g)} ::
             v.base <= g < v.base + |v.alloc.refs| && Holders(v.pages, g) != {} ==>
               |Holders(vm.pages, g)| == RefCount(vm, g);
  }

  lemma QuietExact(vm: Vm, v: Vm)
    requires WellFormed(vm) && AllExact(vm) && Quiet(vm, v) && v.pages == vm.pages
    ensures AllExact(v)
  {
    hide WellFormed, FreeFrame;
    HeldInUse(vm);
    forall g {:trigger Holders(v.pages, g)} | v.base <= g < v.base + |v.alloc.refs| && Holders(v.pages, g) != {}
      ensures |Holders(v.pages, g)| == RefCount(v, g)
    {
      assert |Holders(vm.pages, g)| == RefCount(vm, g);
      assert v.alloc.refs[g - v.base] == vm.alloc.refs[g - vm.base];
    }
  }

  lemma SplitExact(vm: Vm, p: Page)
    requires WellFormed(vm) && AllExact(vm) && p in vm.pages
    ensures Split(vm, p).Some? ==> AllExact(Split(vm, p).value)
  {
    hide WellFormed, Split, FreeFrame, Mappable;
    SplitEffect(vm, p);
    if Split(vm, p).Some? {
      var v := Split(vm, p).value;
      NotHeld(vm, v.pages[p].frame);
      assert p in Holders(vm.pages, vm.pages[p].frame);
      forall g {:trigger Holders(v.pages, g)} | v.base <= g < v.base + |v.alloc.refs| && Holders(v.pages, g) != {}
        ensures |Holders(v.pages, g)| == RefCount(v, g)
      {
        HoldersReplace(vm.pages, p, v.pages[p], g);
        if Holders(vm.pages, g) != {} {
          assert |Holders(vm.pages, g)| == RefCount(vm, g);
        } else {
          assert |Holders(v.pages, g)| > 0;
        }
      }
    }
  }

  lemma UnmapExact(vm: Vm, p: Page)
    requires WellFormed(vm) && Counted(vm) && AllExact(vm) && p in vm.pages
    ensures vm.base <= vm.pages[p].frame < vm.base + |vm.alloc.refs| <= |vm.data|
    ensures AllExact(Unmap(vm, p))
  {
    hide WellFormed, Unmap, Counted;
    HeldCount(vm, p);
    UnmapEffect(vm, p);
    var w := Unmap(vm, p);
    forall g {:trigger Holders(w.pages, g)} | w.base <= g < w.base + |w.alloc.refs| && Holders(w.pages, g) != {}
      ensures |Holders(w.pages, g)| == RefCount(w, g)
    {
      HoldersRemove(vm.pages, p, g);
      assert |Holders(vm.pages, g)| == RefCount(vm, g);
    }
  }

  lemma {:induction false} UnmapPagesExact(vm: Vm, space: nat, a: nat, b: nat)
    requires WellFormed(vm) && Counted(vm) && space != KERNEL && AllExact(vm)
    ensures AllExact(UnmapPages(vm, space, a, b))
    ensures forall p: Page {:trigger p in UnmapPages(vm, space, a, b).pages} ::
      p in UnmapPages(vm, space, a, b).pages <==> p in vm.pages && !(p.space == space && a <= p.number < b)
    decreases b - a
  {
    hide WellFormed, Counted, Unmap, UnmapPages, AllExact;
    var p := Page(space, a);
    if a >= b {
      UnmapPagesEnd(vm, space, a, b);
    } else {
      UnmapPagesStep(vm, space, a, b);
      if p !in vm.pages {
        UnmapPagesExact(vm, space, a + 1, b);
      } else {
        UnmapExact(vm, p);
        HeldCount(vm, p);
        UnmapEffect(vm, p);
        UnmapPagesExact(Unmap(vm, p), space, a + 1, b);
      }
    }
  }

  // Release takes away exactly the pages from the start of an area up to its rounded end;
  // the page that begins at an aligned end stays.
  predicate InRelease(areas: seq<Vma>, n: nat) {
    exists i :: 0 <= i < |areas| && AreaFirst(areas[i]) <= n < UnmapLimit(areas[i])
  }

  lemma {:induction false} ReleaseExact(vm: Vm, space: nat, areas: seq<Vma>)
    requires WellFormed(vm) && Counted(vm) && space != KERNEL && AllExact(vm)
    ensures AllExact(ReleaseAreas(vm, space, areas))
    ensures forall p: Page {:trigger p in ReleaseAreas(vm, space, areas).pages} ::
      p in ReleaseAreas(vm, space, areas).pages <==> p in vm.pages && !(p.space == space && InRelease(areas, p.number))
    decreases |areas|
  {
    hide WellFormed, Counted, UnmapPages, AllExact;
    if areas != [] {
      var a, b := AreaFirst(areas[0]), UnmapLimit(areas[0]);
      UnmapPagesExact(vm, space, a, b);
      var v := UnmapPages(vm, space, a, b);
      ReleaseExact(v, space, areas[1..]);
      forall n: nat
        ensures InRelease(areas, n) <==> a <= n < b || InRelease(areas[1..], n)
      {
        InReleaseCons(areas, n);
      }
    }
  }

  lemma InReleaseCons(areas: seq<Vma>, n: nat)
    requires areas != []
    ensures InRelease(areas, n) <==> AreaFirst(areas[0]) <= n < UnmapLimit(areas[0]) || InRelease(areas[1..], n)
  {
    if InRelease(areas, n) {
      var i :| 0 <= i < |areas| && AreaFirst(areas[i]) <= n < UnmapLimit(areas[i]);
      assert i > 0 ==> areas[1..][i - 1] == areas[i];
    }
    if InRelease(areas[1..], n) {
      var i :| 0 <= i < |areas[1..]| && AreaFirst(areas[1..][i]) <= n < UnmapLimit(areas[1..][i]);
      assert areas[i + 1] == areas[1..][i];
    }
  }
}
