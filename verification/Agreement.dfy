/**
  Two abstract memories with the same tables, pages and allocator, and the same bytes wherever
  anybody but the fork code can look: nothing the kernel does tells them apart.
 */
module Agreement {
  import opened Addressing
  import Counting
  import opened FrameAllocator
  import opened Hardware
  import opened Isolation
  import opened Loader
  import opened Memory
  import Protection
  import opened Runs
  import opened Spaces
  import opened TaskMemory
  import opened VirtualMemory
  import opened Wrappers

  // The kernel page at which a top-level table was filled in.
  ghost predicate Shadow(l: Layout, p: Page) {
    p.space == KERNEL && l.IsAlias(p.number)
  }

  // Equal but for the bytes of frames that are not free and that only shadows show.
  ghost predicate Agree(vm: Vm, v: Vm, l: Layout) {
    && v == vm.(data := v.data) && |v.data| == |vm.data|
    && (forall f: nat {:trigger FreeFrame(vm, f)} :: f < |vm.data| && FreeFrame(vm, f) ==> v.data[f] == vm.data[f])
    && (forall p {:trigger vm.pages[p]} :: p in vm.pages && !Shadow(l, p) && vm.pages[p].frame < |vm.data| ==>
          v.data[vm.pages[p].frame] == vm.data[vm.pages[p].frame])
  }

  // An operation goes through in both or in neither, and leaves them in agreement.
  ghost predicate Alike(r: Option<Vm>, q: Option<Vm>, l: Layout) {
    (r.Some? <==> q.Some?) && (r.Some? ==> Agree(r.value, q.value, l))
  }

  lemma AgreeWellFormed(vm: Vm, v: Vm, l: Layout)
    requires Agree(vm, v, l)
    ensures WellFormed(vm) ==> WellFormed(v)
    ensures Counted(vm) ==> Counted(v)
    ensures forall parents {:trigger Owned(v, parents)} :: Owned(vm, parents) ==> Owned(v, parents)
  {
    hide WellFormed, Counted, Owned, Layout.IsAlias;
    if WellFormed(vm) {
      SameLengthData(vm, v.data);
    }
    if Counted(vm) {
      Counting.SameCounted(vm, v);
    }
    forall parents {:trigger Owned(v, parents)} | Owned(vm, parents)
      ensures Owned(v, parents)
    {
      FewerOwned(vm, v, parents);
    }
  }

  // ------------------------------------------------------------- what mapping does

  function WithData(r: Option<Vm>, data: seq<Frame>): Option<Vm> {
    match r
    case Some(v) => Some(v.(data := data))
    case None => None
  }

  lemma TableSame(vm: Vm, v: Vm, t: Table)
    requires WellFormed(vm) && WellFormed(v) && v == vm.(data := v.data) && Placed(vm, t)
    ensures Placed(v, t) && EnsureTable(v, t) == WithData(EnsureTable(vm, t), v.data)
    ensures EnsureTable(vm, t).Some? ==> EnsureTable(vm, t).value.data == vm.data
  {
    hide PoolOk, TablesOk, PagesOk, Frames.Take;
  }

  lemma PathSame(vm: Vm, v: Vm, space: nat, n: nat)
    requires WellFormed(vm) && WellFormed(v) && v == vm.(data := v.data) && Reachable(vm, space, n)
    ensures Reachable(v, space, n) && EnsurePath(v, space, n) == WithData(EnsurePath(vm, space, n), v.data)
    ensures EnsurePath(vm, space, n).Some? ==> EnsurePath(vm, space, n).value.data == vm.data
  {
    assert Reachable(v, space, n);
    hide WellFormed, FreeFrame, Placed, Pdpt, Pd, Pt, EnsureTable, Reachable, Grown;
    PathPlaced(vm, space, n);
    TableSame(vm, v, Pdpt(space, n));
    var v3 := EnsureTable(vm, Pdpt(space, n));
    if v3.Some? {
      PathPlaced(v3.value, space, n);
      var w3 := v3.value.(data := v.data);
      TableSame(v3.value, w3, Pd(space, n));
      var v2 := EnsureTable(v3.value, Pd(space, n));
      if v2.Some? {
        PathPlaced(v2.value, space, n);
        TableSame(v2.value, v2.value.(data := v.data), Pt(space, n));
      }
    }
  }

  lemma PathAgree(vm: Vm, v: Vm, l: Layout, space: nat, n: nat)
    requires WellFormed(vm) && WellFormed(v) && Agree(vm, v, l) && Reachable(vm, space, n)
    ensures Reachable(v, space, n) && Alike(EnsurePath(vm, space, n), EnsurePath(v, space, n), l)
  {
    PathSame(vm, v, space, n);
    EnsurePathQuiet(vm, space, n);
    hide WellFormed, FreeFrame, Reachable, EnsurePath, Layout.IsAlias;
  }

  // A free frame goes to a page, with the same bytes in both; at a shadow they may differ.
  lemma TakenAgree(vm: Vm, v: Vm, l: Layout, p: Page, c: Frame, d: Frame)
    requires WellFormed(vm) && WellFormed(v) && Agree(vm, v, l) && !vm.alloc.Exhausted() && (c == d || Shadow(l, p))
    ensures vm.alloc.Valid() && NextFrame(v) == NextFrame(vm) < |vm.data| && v.data[NextFrame(vm)] == vm.data[NextFrame(vm)]
    ensures Agree(MapTaken(vm, p, c), MapTaken(v, p, d), l)
  {
    Taken(vm);
    TakenPool(vm);
    FreeUnheld(vm, NextFrame(vm));
    PoolInData(vm);
    FreeKept(TakeFrame(vm), MapTaken(vm, p, c));
    hide WellFormed, Layout.IsAlias, Frames.Valid, Frames.Take, FreeFrame, Shadow;
    var w, x := MapTaken(vm, p, c), MapTaken(v, p, d);
    forall q {:trigger w.pages[q]} | q in w.pages && !Shadow(l, q) && w.pages[q].frame < |w.data|
      ensures x.data[w.pages[q].frame] == w.data[w.pages[q].frame]
    {
      if q != p {
        assert q in vm.pages && vm.pages[q] == w.pages[q];
      }
    }
  }

  lemma PoolInData(vm: Vm)
    requires WellFormed(vm)
    ensures vm.base + |vm.alloc.refs| <= |vm.data|
  {
    hide TablesOk, PagesOk;
  }

  lemma ClearedAgree(vm: Vm, v: Vm, l: Layout, p: Page)
    requires Agree(vm, v, l) && p in vm.pages && !Shadow(l, p) && vm.pages[p].frame < |vm.data|
    ensures Agree(Cleared(vm, vm.pages[p].frame), Cleared(v, vm.pages[p].frame), l)
  {
    FreeKept(vm, Cleared(vm, vm.pages[p].frame));
    hide Layout.IsAlias, FreeFrame, ZeroPrefix;
  }

  lemma MapPageAgree(vm: Vm, v: Vm, l: Layout, space: nat, n: nat)
    requires WellFormed(vm) && WellFormed(v) && Agree(vm, v, l) && Reachable(vm, space, n) && !Shadow(l, PageIn(space, n))
    ensures Reachable(v, space, n) && Alike(MapPage(vm, space, n), MapPage(v, space, n), l)
  {
    PathAgree(vm, v, l, space, n);
    hide TablesOk, PoolOk, Reachable, EnsurePath, Layout.IsAlias, PageIn, ZeroPrefix, Agree, Shadow;
    var r := EnsurePath(vm, space, n);
    if r.Some? {
      var w, x, p := r.value, EnsurePath(v, space, n).value, PageIn(space, n);
      assert x == w.(data := x.data) by { AgreeShape(w, x, l); }
      if p in w.pages {
        ClearedAgree(w, x, l, p);
      } else if !w.alloc.Exhausted() {
        TakenAgree(w, x, l, p, ZeroPrefix(w.data[NextFrame(w)], CLEARED), ZeroPrefix(w.data[NextFrame(w)], CLEARED));
      }
    }
  }

  lemma AgreeShape(vm: Vm, v: Vm, l: Layout)
    requires Agree(vm, v, l)
    ensures v == vm.(data := v.data) && |v.data| == |vm.data|
  {
  }

  // ------------------------------------------------------------- faults and stores

  lemma SplitAgree(vm: Vm, v: Vm, l: Layout, p: Page)
    requires WellFormed(vm) && WellFormed(v) && Agree(vm, v, l) && p in vm.pages && p.space != KERNEL
    ensures Alike(Split(vm, p), Split(v, p), l)
  {
    PageFrame(vm, p);
    var f := vm.pages[p].frame;
    RefWellFormed(vm, f);
    RefWellFormed(v, f);
    CountAgree(vm, v, l, f);
    hide WellFormed, Layout.IsAlias, FreeFrame, Frames.Dec, Frames.Inc, Frames.Valid, MapTaken;
    if !DecRef(vm, f).alloc.Exhausted() {
      TakenAgree(DecRef(vm, f), DecRef(v, f), l, p, vm.data[f], v.data[f]);
    }
  }

  lemma CountAgree(vm: Vm, v: Vm, l: Layout, f: nat)
    requires Agree(vm, v, l) && vm.base <= f < vm.base + |vm.alloc.refs|
    ensures Agree(DecRef(vm, f), DecRef(v, f), l) && Agree(IncRef(vm, f), IncRef(v, f), l)
  {
    FreeSame(vm, DecRef(vm, f));
    FreeSame(vm, IncRef(vm, f));
    hide Layout.IsAlias, FreeFrame, Frames.Dec, Frames.Inc;
  }

  lemma FreeSame(vm: Vm, v: Vm)
    requires v.base == vm.base && v.alloc.free == vm.alloc.free
    ensures forall g {:trigger FreeFrame(v, g)} :: FreeFrame(v, g) <==> FreeFrame(vm, g)
  {
  }

  lemma AccessAgree(vm: Vm, v: Vm, l: Layout, q: nat, areas: seq<Vma>, a: nat, write: bool)
    requires WellFormed(vm) && WellFormed(v) && Agree(vm, v, l) && InUse(vm, q) && Private(a)
    ensures InUse(v, q) && Alike(Access(vm, q, areas, a, write), Access(v, q, areas, a, write), l)
  {
    AgreeShape(vm, v, l);
    PrivateReachable(vm, q, a);
    PrivateReachable(v, q, a);
    var p := UserPage(q, a);
    hide WellFormed, Agree, Layout.IsAlias, Split, MapPage, Private, PageOf, Reachable, PageIn, Spaces.Covered, Shadow;
    NotShadow(l, p);
    if p in vm.pages {
      SplitAgree(vm, v, l, p);
    } else {
      MapPageAgree(vm, v, l, q, PageOf(a));
    }
  }

  // A byte written to a frame that somebody shows.
  lemma WrittenAgree(vm: Vm, v: Vm, l: Layout, p: Page, o: nat, b: Byte)
    requires Agree(vm, v, l) && p in vm.pages && !Shadow(l, p) && vm.pages[p].frame < |vm.data| && o < 4096
    ensures var f := vm.pages[p].frame;
            Agree(SetData(vm, f, vm.data[f][o := b]), SetData(v, f, v.data[f][o := b]), l)
  {
    FreeKept(vm, SetData(vm, vm.pages[p].frame, vm.data[vm.pages[p].frame][o := b]));
    hide Layout.IsAlias, FreeFrame;
  }

  // -------------------------------------------------------------- unmapping, release

  lemma UnmapAgree(vm: Vm, v: Vm, l: Layout, p: Page)
    requires WellFormed(vm) && WellFormed(v) && Agree(vm, v, l) && p in vm.pages && p.space != KERNEL
    requires vm.base < vm.pages[p].frame < vm.base + |vm.alloc.refs| <= |vm.data| && RefCount(vm, vm.pages[p].frame) >= 1
    ensures Agree(Unmap(vm, p), Unmap(v, p), l)
  {
    UnmapEffect(vm, p);
    UnmapEffect(v, p);
    UnmapFrees(vm, p);
    AgreeShape(vm, v, l);
    UnmapShape(vm, v, p);
    hide WellFormed, Layout.IsAlias, FreeFrame, Unmap, ZeroPrefix, Shadow;
    var w, x, f := Unmap(vm, p), Unmap(v, p), vm.pages[p].frame;
    assert v.data[f] == vm.data[f] by { assert !Shadow(l, p) by { NotShadow(l, p); } }
    forall q {:trigger w.pages[q]} | q in w.pages && !Shadow(l, q) && w.pages[q].frame < |w.data|
      ensures x.data[w.pages[q].frame] == w.data[w.pages[q].frame]
    {
      assert q in vm.pages && vm.pages[q] == w.pages[q];
    }
  }

  lemma NotShadow(l: Layout, p: Page)
    requires p.space != KERNEL
    ensures !Shadow(l, p)
  {
  }

  lemma UnmapFrees(vm: Vm, p: Page)
    requires WellFormed(vm) && p in vm.pages && RefCount(vm, vm.pages[p].frame) >= 1
    requires vm.base < vm.pages[p].frame < vm.base + |vm.alloc.refs| <= |vm.data|
    ensures forall f: nat {:trigger FreeFrame(Unmap(vm, p), f)} ::
              FreeFrame(Unmap(vm, p), f) ==> FreeFrame(vm, f) || f == vm.pages[p].frame
  {
    UnmapEffect(vm, p);
    hide WellFormed, Unmap;
  }

  lemma UnmapShape(vm: Vm, v: Vm, p: Page)
    requires v == vm.(data := v.data) && |v.data| == |vm.data| && p in vm.pages
    requires vm.base < vm.pages[p].frame < vm.base + |vm.alloc.refs| <= |vm.data|
    ensures Unmap(v, p) == Unmap(vm, p).(data := Unmap(v, p).data)
  {
    hide ZeroPrefix, Frames.Dec, Frames.Give;
  }

  lemma {:induction false} UnmapPagesAgree(vm: Vm, v: Vm, l: Layout, q: nat, a: nat, b: nat)
    requires WellFormed(vm) && Counted(vm) && WellFormed(v) && Counted(v) && Agree(vm, v, l) && q != KERNEL
    ensures Agree(UnmapPages(vm, q, a, b), UnmapPages(v, q, a, b), l)
    decreases b - a
  {
    AgreeShape(vm, v, l);
    hide WellFormed, Counted, Agree, Unmap, UnmapPages;
    if a >= b {
      UnmapPagesEnd(vm, q, a, b);
      UnmapPagesEnd(v, q, a, b);
    } else {
      UnmapPagesStep(vm, q, a, b);
      UnmapPagesStep(v, q, a, b);
      if Page(q, a) in vm.pages {
        HeldCount(vm, Page(q, a));
        UnmapAgree(vm, v, l, Page(q, a));
        UnmapPagesAgree(Unmap(vm, Page(q, a)), Unmap(v, Page(q, a)), l, q, a + 1, b);
      } else {
        UnmapPagesAgree(vm, v, l, q, a + 1, b);
      }
    }
  }

  lemma {:induction false} ReleaseAgree(vm: Vm, v: Vm, l: Layout, q: nat, areas: seq<Vma>)
    requires WellFormed(vm) && Counted(vm) && WellFormed(v) && Counted(v) && Agree(vm, v, l) && q != KERNEL
    ensures Agree(ReleaseAreas(vm, q, areas), ReleaseAreas(v, q, areas), l)
    decreases |areas|
  {
    hide WellFormed, Counted, Agree, UnmapPages;
    if areas != [] {
      var a, b := AreaFirst(areas[0]), UnmapLimit(areas[0]);
      UnmapPagesAgree(vm, v, l, q, a, b);
      ReleaseAgree(UnmapPages(vm, q, a, b), UnmapPages(v, q, a, b), l, q, areas[1..]);
    }
  }

  // -------------------------------------------------------------------------- fork

  lemma {:induction false} IncAgree(vm: Vm, v: Vm, l: Layout, q: nat, a: nat, b: nat)
    requires WellFormed(vm) && WellFormed(v) && Agree(vm, v, l)
    ensures Agree(IncPages(vm, q, a, b), IncPages(v, q, a, b), l)
    decreases b - a
  {
    AgreeShape(vm, v, l);
    hide PoolOk, TablesOk, PagesOk, Agree, IncRef, Frames.Inc;
    if a < b {
      if Page(q, a) in vm.pages {
        var f := vm.pages[Page(q, a)].frame;
        PageFrame(vm, Page(q, a));
        RefWellFormed(vm, f);
        RefWellFormed(v, f);
        CountAgree(vm, v, l, f);
        IncAgree(IncRef(vm, f), IncRef(v, f), l, q, a + 1, b);
      } else {
        IncAgree(vm, v, l, q, a + 1, b);
      }
    }
  }

  // The frame of a page is shown at another one.
  lemma MapCowAgree(vm: Vm, v: Vm, l: Layout, q: nat, n: nat, p: Page)
    requires WellFormed(vm) && WellFormed(v) && Agree(vm, v, l) && Reachable(vm, q, n)
    requires p in vm.pages && p.space != KERNEL && Mappable(vm, vm.pages[p].frame)
    ensures Reachable(v, q, n) && Mappable(v, vm.pages[p].frame)
    ensures Alike(MapCow(vm, q, n, vm.pages[p].frame), MapCow(v, q, n, vm.pages[p].frame), l)
  {
    PathAgree(vm, v, l, q, n);
    var f, r := vm.pages[p].frame, EnsurePath(vm, q, n);
    assert Mappable(v, f);
    hide WellFormed, Reachable, Mappable, EnsurePath, PageIn, Layout.IsAlias, Agree, Shadow;
    if r.Some? {
      NotShadow(l, p);
      ShownAgree(r.value, EnsurePath(v, q, n).value, l, p, PageIn(q, n));
    }
  }

  lemma ShownAgree(vm: Vm, v: Vm, l: Layout, p: Page, q: Page)
    requires Agree(vm, v, l) && p in vm.pages && !Shadow(l, p)
    ensures var e := Pte(vm.pages[p].frame, false); Agree(SetPage(vm, q, e), SetPage(v, q, e), l)
  {
    FreeKept(vm, SetPage(vm, q, Pte(vm.pages[p].frame, false)));
    hide Layout.IsAlias, FreeFrame, Shadow;
  }

  // One page of the copy.
  ghost function CowOne(vm: Vm, parent: nat, child: nat, n: nat): (r: Option<Vm>)
    requires WellFormed(vm) && InUse(vm, child) && parent != KERNEL && n < PAGE_LIMIT
    ensures r.Some? ==> WellFormed(r.value) && InUse(r.value, child)
  {
    if Page(parent, n) !in vm.pages then Some(vm)
    else
      hide WellFormed, MapCow, Mappable, Reachable, PageIn, Quiet;
      UserReachable(vm, child, n);
      UserMappable(vm, Page(parent, n));
      MapCowEffect(vm, child, n, vm.pages[Page(parent, n)].frame);
      MapCow(vm, child, n, vm.pages[Page(parent, n)].frame)
  }

  lemma CowStep(vm: Vm, parent: nat, child: nat, a: nat, b: nat)
    requires WellFormed(vm) && InUse(vm, child) && parent != KERNEL && b <= PAGE_LIMIT && a < b
    ensures CowPages(vm, parent, child, a, b)
         == if CowOne(vm, parent, child, a).None? then None
            else CowPages(CowOne(vm, parent, child, a).value, parent, child, a + 1, b)
  {
    hide WellFormed, MapCow, Mappable, Reachable, PageIn, InUse;
  }

  lemma CowOneAgree(vm: Vm, v: Vm, l: Layout, parent: nat, child: nat, n: nat)
    requires WellFormed(vm) && WellFormed(v) && Agree(vm, v, l) && InUse(vm, child) && InUse(v, child) && parent != KERNEL
    requires n < PAGE_LIMIT
    ensures Alike(CowOne(vm, parent, child, n), CowOne(v, parent, child, n), l)
  {
    AgreeShape(vm, v, l);
    hide WellFormed, MapCow, Mappable, Reachable, PageIn, Agree;
    var p := Page(parent, n);
    if p in vm.pages {
      UserReachable(vm, child, n);
      UserMappable(vm, p);
      MapCowAgree(vm, v, l, child, n, p);
    }
  }

  lemma {:induction false} CowAgree(vm: Vm, v: Vm, l: Layout, parent: nat, child: nat, a: nat, b: nat)
    requires WellFormed(vm) && WellFormed(v) && Agree(vm, v, l) && InUse(vm, child) && InUse(v, child) && parent != KERNEL
    requires b <= PAGE_LIMIT
    ensures Alike(CowPages(vm, parent, child, a, b), CowPages(v, parent, child, a, b), l)
    decreases b - a
  {
    hide WellFormed, Agree, CowOne, InUse;
    if a < b {
      CowOneAgree(vm, v, l, parent, child, a);
      CowStep(vm, parent, child, a, b);
      CowStep(v, parent, child, a, b);
      var r := CowOne(vm, parent, child, a);
      if r.Some? {
        CowAgree(r.value, CowOne(v, parent, child, a).value, l, parent, child, a + 1, b);
      }
    }
  }

  lemma {:induction false} CopyAgree(vm: Vm, v: Vm, l: Layout, parent: nat, child: nat, areas: seq<Vma>)
    requires WellFormed(vm) && WellFormed(v) && Agree(vm, v, l) && InUse(vm, child) && InUse(v, child) && parent != KERNEL
    requires Bounded(areas)
    ensures Alike(CopyAreas(vm, parent, child, areas), CopyAreas(v, parent, child, areas), l)
    decreases |areas|
  {
    hide WellFormed, Agree, IncPages, CowPages;
    if areas != [] {
      var a, b := AreaFirst(areas[0]), AreaLimit(areas[0]);
      IncAgree(vm, v, l, parent, a, b);
      CowAgree(IncPages(vm, parent, a, b), IncPages(v, parent, a, b), l, parent, child, a, b);
      var r := CowPages(IncPages(vm, parent, a, b), parent, child, a, b);
      if r.Some? {
        CopyAgree(r.value, CowPages(IncPages(v, parent, a, b), parent, child, a, b).value, l, parent, child, areas[1..]);
      }
    }
  }

  // A page of an image, and the rest of it.
  lemma FilledAgree(vm: Vm, v: Vm, l: Layout, p: Page, fr: Frame)
    requires Agree(vm, v, l) && p in vm.pages && vm.pages[p].frame < |vm.data|
    ensures Agree(SetData(vm, vm.pages[p].frame, fr), SetData(v, vm.pages[p].frame, fr), l)
  {
    FreeKept(vm, SetData(vm, vm.pages[p].frame, fr));
    hide Layout.IsAlias, FreeFrame, Shadow;
  }

  lemma {:induction false} ImageAgree(vm: Vm, v: Vm, l: Layout, pid: nat, image: seq<(nat, Frame)>)
    requires WellFormed(vm) && WellFormed(v) && Agree(vm, v, l) && InUse(vm, pid) && InUse(v, pid) && ImageOk(image)
    requires Unmapped(vm, pid, image) && Unmapped(v, pid, image)
    ensures Alike(LoadImage(vm, pid, image), LoadImage(v, pid, image), l)
    decreases |image|
  {
    hide WellFormed, Agree, InUse, ImageOk, Unmapped, LoadImage, MapPage, Reachable, PageIn, Shadow, Layout.IsAlias;
    if image == [] {
      LoadsNone(vm, pid);
      LoadsNone(v, pid);
    } else {
      var (n, fr) := image[0];
      LoadsOne(vm, pid, image);
      LoadsOne(v, pid, image);
      NotShadow(l, Page(pid, n)) by { assert pid != KERNEL by { Owner(vm, pid); } }
      MapPageAgree(vm, v, l, pid, n);
      if MapPage(vm, pid, n).Some? {
        var a, b, p := MapPage(vm, pid, n).value, MapPage(v, pid, n).value, Page(pid, n);
        AgreeShape(a, b, l);
        FilledAgree(a, b, l, p, fr);
        ImageAgree(SetData(a, a.pages[p].frame, fr), SetData(b, b.pages[p].frame, fr), l, pid, image[1..]);
      }
    }
  }

  lemma Owner(vm: Vm, pid: nat)
    requires InUse(vm, pid)
    ensures pid != KERNEL
  {
  }

  // ------------------------------------------------------------------- a new space

  lemma MapPageShape(vm: Vm, v: Vm, space: nat, n: nat)
    requires WellFormed(vm) && WellFormed(v) && v == vm.(data := v.data) && |v.data| == |vm.data| && Reachable(vm, space, n)
    ensures Reachable(v, space, n) && (MapPage(v, space, n).Some? <==> MapPage(vm, space, n).Some?)
    ensures MapPage(vm, space, n).Some? ==>
      MapPage(v, space, n).value == MapPage(vm, space, n).value.(data := MapPage(v, space, n).value.data)
  {
    PathSame(vm, v, space, n);
    hide WellFormed, Reachable, EnsurePath, PageIn, ZeroPrefix, MapTaken, Cleared, Frames.Exhausted;
    var r := EnsurePath(vm, space, n);
    if r.Some? {
      ShapeRest(r.value, EnsurePath(v, space, n).value, PageIn(space, n));
    }
  }

  lemma ShapeRest(vm: Vm, v: Vm, p: Page)
    requires WellFormed(vm) && WellFormed(v) && v == vm.(data := v.data)
    ensures vm.alloc.Valid()
    ensures p in vm.pages ==>
      vm.pages[p].frame < |vm.data| && vm.pages[p].frame < |v.data|
      && Cleared(v, vm.pages[p].frame) == Cleared(vm, vm.pages[p].frame).(data := Cleared(v, vm.pages[p].frame).data)
    ensures !vm.alloc.Exhausted() ==>
      && NextFrame(vm) < |vm.data| && NextFrame(vm) < |v.data|
      && forall c, d {:trigger MapTaken(vm, p, c), MapTaken(v, p, d)} ::
           MapTaken(v, p, d) == MapTaken(vm, p, c).(data := MapTaken(v, p, d).data)
  {
    FramesInData(vm);
    FramesInData(v);
    if !vm.alloc.Exhausted() {
      Taken(vm);
      PoolInData(vm);
      PoolInData(v);
    }
    hide TablesOk, PagesOk, ZeroPrefix, Frames.Take;
  }

  // What a new space adds: an alias that shows its table, whose frame nothing else shows.
  lemma SpaceAdded(vm: Vm, alias: nat, pid: nat)
    requires WellFormed(vm) && KernelApart(vm) && Adoptable(vm, alias, pid) && AddSpace(vm, alias, pid).Some?
    ensures var u, p := AddSpace(vm, alias, pid).value, Page(KERNEL, alias);
            && p in u.pages && u.pages == vm.pages[p := u.pages[p]] && u.data == vm.data
            && Top(pid) in u.tables && u.tables[Top(pid)] == u.pages[p].frame
            && !FreeFrame(u, u.pages[p].frame)
            && (forall g {:trigger FreeFrame(u, g)} :: FreeFrame(u, g) ==> FreeFrame(vm, g))
            && (forall q {:trigger u.pages[q]} :: q in u.pages && q != p ==> u.pages[q].frame != u.pages[p].frame)
  {
    MappedAlias(vm, alias, pid);
    AliasFrame(vm, alias, pid);
    hide WellFormed, MapPage, Adoptable, Reachable, Mappable, FreeFrame, PageIn, KernelApart, Quiet, KernelOnly;
    AddSpaceUnfold(vm, alias, pid);
    var v := MapPage(vm, KERNEL, alias).value;
    var u, p := AddSpace(vm, alias, pid).value, Page(KERNEL, alias);
    FreeFewer(vm, v, u);
    AliasAlone(vm, u, p, alias) by { SameOnly(v, u, u.pages[p].frame); }
  }

  lemma AliasFrame(vm: Vm, alias: nat, pid: nat)
    requires WellFormed(vm) && Adoptable(vm, alias, pid) && Reachable(vm, KERNEL, alias) && MapPage(vm, KERNEL, alias).Some?
    ensures var v, p := MapPage(vm, KERNEL, alias).value, Page(KERNEL, alias);
            && p in v.pages && (p in vm.pages ==> v.pages[p] == vm.pages[p])
            && (p !in vm.pages ==> FreeFrame(vm, v.pages[p].frame))
  {
    AliasReachable(vm, alias);
    hide WellFormed, MapPage, Reachable, Mappable, FreeFrame, PageIn, Quiet, KernelOnly, ZeroPrefix;
    if Page(KERNEL, alias) in vm.pages {
      MapPagePresent(vm, KERNEL, alias);
    } else {
      MapPageEffect(vm, KERNEL, alias);
    }
  }

  lemma SameOnly(v: Vm, u: Vm, f: nat)
    requires KernelOnly(v, f) && u.pages == v.pages
    ensures KernelOnly(u, f)
  {
  }

  lemma AddSpaceAgree(vm: Vm, v: Vm, l: Layout, alias: nat, pid: nat, w: Vm)
    requires WellFormed(vm) && WellFormed(v) && Agree(vm, v, l) && KernelApart(vm) && l.IsAlias(alias)
    requires Adoptable(vm, alias, pid) && Adoptable(v, alias, pid)
    requires AddSpace(v, alias, pid).Some? && w == AddSpace(v, alias, pid).value.(data := w.data)
    requires Top(pid) in w.tables && FilledAt(v, w, w.tables[Top(pid)])
    ensures AddSpace(vm, alias, pid).Some? && Agree(AddSpace(vm, alias, pid).value, w, l)
  {
    AgreeShape(vm, v, l);
    AliasReachable(vm, alias);
    MapPageShape(vm, v, KERNEL, alias);
    AddSpaceUnfold(vm, alias, pid);
    AddSpaceUnfold(v, alias, pid);
    SpaceAdded(vm, alias, pid);
    hide WellFormed, MapPage, Adoptable, Reachable, FreeFrame, Layout.IsAlias, KernelApart, Agree, AddSpace, FilledAt;
    AgreeFilled(vm, v, l, AddSpace(vm, alias, pid).value, w, Page(KERNEL, alias));
  }

  lemma FreeFewer(vm: Vm, v: Vm, u: Vm)
    requires Quiet(vm, v) && u.alloc == v.alloc && u.base == v.base
    ensures forall g {:trigger FreeFrame(u, g)} :: FreeFrame(u, g) ==> FreeFrame(vm, g)
  {
    FreeSame(v, u);
    hide FreeFrame;
  }

  // No other page shows the frame of an alias.
  lemma AliasAlone(vm: Vm, u: Vm, p: Page, alias: nat)
    requires WellFormed(vm) && WellFormed(u) && KernelApart(vm) && p == Page(KERNEL, alias)
    requires p in u.pages && u.pages == vm.pages[p := u.pages[p]] && KernelOnly(u, u.pages[p].frame)
    requires p in vm.pages ==> u.pages[p] == vm.pages[p]
    requires p !in vm.pages ==> FreeFrame(vm, u.pages[p].frame)
    ensures !FreeFrame(u, u.pages[p].frame)
    ensures forall q {:trigger u.pages[q]} :: q in u.pages && q != p ==> u.pages[q].frame != u.pages[p].frame
  {
    PageFrame(u, p);
    if p !in vm.pages {
      FreeUnheld(vm, u.pages[p].frame);
    }
    hide WellFormed, FreeFrame;
    assert forall q {:trigger u.pages[q]} :: q in u.pages && q != p ==> q in vm.pages && vm.pages[q] == u.pages[q];
  }

  lemma AgreeFilled(vm: Vm, v: Vm, l: Layout, u: Vm, w: Vm, p: Page)
    requires Agree(vm, v, l) && Shadow(l, p) && p in u.pages && u.pages == vm.pages[p := u.pages[p]]
    requires u.data == vm.data && w == u.(data := w.data) && FilledAt(v, w, u.pages[p].frame)
    requires forall g {:trigger FreeFrame(u, g)} :: FreeFrame(u, g) ==> FreeFrame(vm, g)
    requires !FreeFrame(u, u.pages[p].frame)
    requires forall q {:trigger u.pages[q]} :: q in u.pages && q != p ==> u.pages[q].frame != u.pages[p].frame
    ensures Agree(u, w, l)
  {
    hide FreeFrame, Shadow;
    forall q {:trigger u.pages[q]} | q in u.pages && !Shadow(l, q) && u.pages[q].frame < |u.data|
      ensures w.data[u.pages[q].frame] == u.data[u.pages[q].frame]
    {
      assert q in vm.pages && vm.pages[q] == u.pages[q];
    }
  }

  // Who had a slot last, if anybody.
  function LastOwner(s: Sys, slot: nat): Option<nat> {
    if slot in s.owner then Some(s.owner[slot]) else None
  }

  // When the tables of the last owner of a slot are forgotten, what they held is no secret.
  lemma ForgottenAgree(s: Sys, l: Layout, slot: nat, ram: Ram, v: Vm)
    requires Inv(s, l) && Agree(s.vm, v, l) && Coupled(ram, v)
    ensures Agree(Vacated(s, slot), Forgotten(v, ram, LastOwner(s, slot)), l)
  {
    if slot in s.owner {
      hide Inv, Coupled, Layout.IsAlias, FreeFrame, Shadow, WellFormed;
      var d, vm := s.owner[slot], s.vm;
      var w, x := DropSpace(vm, d), DropSpace(v, d).(data := ram);
      PlainSame(s, l, ram, v);
      FreeKept(vm, w);
      forall q {:trigger w.pages[q]} | q in w.pages && !Shadow(l, q) && w.pages[q].frame < |w.data|
        ensures x.data[w.pages[q].frame] == w.data[w.pages[q].frame]
      {
        assert q in vm.pages && vm.pages[q] == w.pages[q];
      }
    }
  }

  lemma PlainSame(s: Sys, l: Layout, ram: Ram, v: Vm)
    requires Inv(s, l) && Agree(s.vm, v, l) && Coupled(ram, v)
    ensures |ram| == |s.vm.data|
    ensures forall f: nat {:trigger FreeFrame(s.vm, f)} :: f < |s.vm.data| && FreeFrame(s.vm, f) ==> ram[f] == s.vm.data[f]
    ensures forall p {:trigger s.vm.pages[p]} ::
              p in s.vm.pages && !Shadow(l, p) && s.vm.pages[p].frame < |s.vm.data| ==>
                ram[s.vm.pages[p].frame] == s.vm.data[s.vm.pages[p].frame]
  {
    hide Inv, Coupled, Layout.IsAlias, FreeFrame, Shadow, IsTable;
    PlainFrames(ram, v);
    forall f: nat {:trigger FreeFrame(s.vm, f)} | f < |s.vm.data| && FreeFrame(s.vm, f)
      ensures ram[f] == s.vm.data[f]
    {
      FreeNoTable(s, l, f);
      assert IsTable(v, f) <==> IsTable(s.vm, f) by { SameTables(s.vm, v, f); }
    }
    forall p {:trigger s.vm.pages[p]} | p in s.vm.pages && !Shadow(l, p) && s.vm.pages[p].frame < |s.vm.data|
      ensures ram[s.vm.pages[p].frame] == s.vm.data[s.vm.pages[p].frame]
    {
      var f := s.vm.pages[p].frame;
      PlainNoTable(s, l, p);
      assert IsTable(v, f) <==> IsTable(s.vm, f) by { SameTables(s.vm, v, f); }
    }
  }

  lemma SameTables(vm: Vm, v: Vm, f: nat)
    requires v.tables == vm.tables
    ensures IsTable(v, f) <==> IsTable(vm, f)
  {
  }

  lemma PlainFrames(ram: Ram, v: Vm)
    requires Coupled(ram, v)
    ensures |ram| == |v.data| && forall f {:trigger ram[f]} :: 0 <= f < |ram| && !IsTable(v, f) ==> ram[f] == v.data[f]
  {
    hide TablesCoupled, WellFormed;
  }

  lemma FreeNoTable(s: Sys, l: Layout, f: nat)
    requires Inv(s, l) && FreeFrame(s.vm, f)
    ensures !IsTable(s.vm, f)
  {
    hide Counted, Owned, TasksOk, AliasesOk, KernelOk, PoolOk, PagesOk, FreeFrame;
  }

  lemma PlainNoTable(s: Sys, l: Layout, p: Page)
    requires Inv(s, l) && p in s.vm.pages && !Shadow(l, p)
    ensures !IsTable(s.vm, s.vm.pages[p].frame)
  {
    if p.space == KERNEL {
      Protection.TableIsAlias(s, l, p.number);
      assert p == Page(KERNEL, p.number);
    } else {
      UserNoTable(s.vm, p);
    }
    hide Inv, Layout.IsAlias, IsTable;
  }

  lemma UserNoTable(vm: Vm, p: Page)
    requires WellFormed(vm) && p in vm.pages && p.space != KERNEL
    ensures !IsTable(vm, vm.pages[p].frame)
  {
    hide PoolOk, TablesOk;
  }
}
