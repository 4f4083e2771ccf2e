/**
  Who may see whose stores.  After fork only the child's entries are read-only, so a
  store by a process may show in its descendants; it never shows in an ancestor, a
  sibling or anyone else.
 */
module Isolation {
  import opened Addressing
  import Counting
  import opened Memory
  import opened Spaces
  import opened VirtualMemory
  import opened Wrappers

  // p is an ancestor of q.  A parent is older than its child, and has the smaller pid.
  predicate Ancestor(parents: map<nat, nat>, p: nat, q: nat)
    decreases q
  {
    q in parents && parents[q] < q && (parents[q] == p || Ancestor(parents, p, parents[q]))
  }

  lemma {:induction false} AncestorTransitive(parents: map<nat, nat>, p: nat, q: nat, r: nat)
    requires Ancestor(parents, p, q) && Ancestor(parents, q, r)
    ensures Ancestor(parents, p, r)
    decreases r
  {
    if parents[r] != q {
      AncestorTransitive(parents, p, q, parents[r]);
    }
  }

  lemma {:induction false} AncestorKept(parents: map<nat, nat>, more: map<nat, nat>, p: nat, q: nat)
    requires forall x {:trigger parents[x]} {:trigger x in parents} :: x in parents ==> x in more && more[x] == parents[x]
    requires Ancestor(parents, p, q)
    ensures Ancestor(more, p, q)
    decreases q
  {
    if parents[q] != p {
      AncestorKept(parents, more, p, parents[q]);
    }
  }

  // No one is an ancestor of itself.
  lemma {:induction false} AncestorOlder(parents: map<nat, nat>, p: nat, q: nat)
    requires Ancestor(parents, p, q)
    ensures p < q
    decreases q
  {
    if parents[q] != p {
      AncestorOlder(parents, p, parents[q]);
    }
  }

  // Two pages show the same frame only at the same page number, only one of the two can
  // be writable, and then the other belongs to a descendant.
  ghost predicate Shared(vm: Vm, parents: map<nat, nat>, p: Page, q: Page)
    requires p in vm.pages && q in vm.pages
  {
    && p.number == q.number
    && (vm.pages[p].writable ==> !vm.pages[q].writable && Ancestor(parents, p.space, q.space))
    && (vm.pages[q].writable ==> !vm.pages[p].writable && Ancestor(parents, q.space, p.space))
  }

  ghost predicate Owned(vm: Vm, parents: map<nat, nat>) {
    && (forall p, q {:trigger vm.pages[p], vm.pages[q]} ::
          (&& p in vm.pages && q in vm.pages && p != q && p.space != KERNEL && q.space != KERNEL
           && vm.pages[p].frame == vm.pages[q].frame)
          ==> Shared(vm, parents, p, q))
    && (forall p, q {:trigger vm.pages[p], vm.pages[q]} ::
          p in vm.pages && q in vm.pages && p.space == KERNEL && q.space != KERNEL ==>
            vm.pages[p].frame != vm.pages[q].frame)
  }

  lemma OwnedMore(vm: Vm, parents: map<nat, nat>, more: map<nat, nat>)
    requires Owned(vm, parents)
    requires forall x {:trigger parents[x]} {:trigger x in parents} :: x in parents ==> x in more && more[x] == parents[x]
    ensures Owned(vm, more)
  {
    hide Ancestor;
    forall p, q {:trigger vm.pages[p], vm.pages[q]}
      | p in vm.pages && q in vm.pages && p != q && p.space != KERNEL && q.space != KERNEL
        && vm.pages[p].frame == vm.pages[q].frame
      ensures Shared(vm, more, p, q)
    {
      assert Shared(vm, parents, p, q);
      if vm.pages[p].writable {
        AncestorKept(parents, more, p.space, q.space);
      }
      if vm.pages[q].writable {
        AncestorKept(parents, more, q.space, p.space);
      }
    }
  }

  // What a process reads at an address of its own; None if the page is not mapped.
  function View(vm: Vm, space: nat, a: nat): Option<Byte>
    requires forall p :: p in vm.pages ==> vm.pages[p].frame < |vm.data|
  {
    if Private(a) && UserPage(space, a) in vm.pages then
      Some(vm.data[vm.pages[UserPage(space, a)].frame][OffsetOf(a)])
    else None
  }

  // Nothing changed for `space`: entries, frames, bytes.
  ghost predicate Undisturbed(vm: Vm, v: Vm, space: nat) {
    && |v.data| == |vm.data|
    && (forall p: Page {:trigger p in v.pages} {:trigger v.pages[p]} {:trigger p in vm.pages} :: p.space == space ==>
          && (p in v.pages <==> p in vm.pages)
          && (p in vm.pages ==>
                && v.pages[p] == vm.pages[p]
                && vm.pages[p].frame < |vm.data|
                && v.data[vm.pages[p].frame] == vm.data[vm.pages[p].frame]))
  }

  lemma UndisturbedTransitive(vm: Vm, v: Vm, w: Vm, space: nat)
    requires Undisturbed(vm, v, space) && Undisturbed(v, w, space)
    ensures Undisturbed(vm, w, space)
  {
  }

  lemma UndisturbedSelf(vm: Vm, space: nat)
    requires WellFormed(vm)
    ensures Undisturbed(vm, vm, space)
  {
    hide TablesOk, PoolOk;
    assert vm.base + |vm.alloc.refs| <= |vm.data| by { PoolSize(vm); }
  }

  lemma PoolSize(vm: Vm)
    requires WellFormed(vm)
    ensures vm.base + |vm.alloc.refs| <= |vm.data|
  {
  }

  // -------------------------------------------------- one page operation at a time

  // A page gets a frame nobody had.
  lemma FreshOwned(vm: Vm, v: Vm, parents: map<nat, nat>, p: Page, e: Pte)
    requires WellFormed(vm) && Owned(vm, parents) && v.pages == vm.pages[p := e] && FreeFrame(vm, e.frame)
    ensures Owned(v, parents)
  {
    FreeUnheld(vm, e.frame);
    hide WellFormed, FreeFrame, Ancestor;
  }

  lemma FreeUnheld(vm: Vm, f: nat)
    requires WellFormed(vm) && FreeFrame(vm, f)
    ensures forall q {:trigger vm.pages[q]} :: q in vm.pages ==> vm.pages[q].frame != f
  {
    hide PoolOk, TablesOk;
  }

  lemma FreshUndisturbed(vm: Vm, v: Vm, p: Page, e: Pte, other: nat)
    requires WellFormed(vm) && v.pages == vm.pages[p := e] && FreeFrame(vm, e.frame) && p.space != other
    requires |v.data| == |vm.data| && (forall g :: 0 <= g < |vm.data| && g != e.frame ==> v.data[g] == vm.data[g])
    ensures Undisturbed(vm, v, other)
  {
    FreeUnheld(vm, e.frame);
    UndisturbedSelf(vm, other);
    hide WellFormed, FreeFrame;
  }

  // A child is shown a page of its parent.
  lemma CowOwned(vm: Vm, v: Vm, parents: map<nat, nat>, parent: nat, child: nat, n: nat)
    requires Owned(vm, parents) && Page(parent, n) in vm.pages && parent != KERNEL && child != KERNEL
    requires child in parents && parents[child] == parent < child
    requires v.pages == vm.pages[Page(child, n) := Pte(vm.pages[Page(parent, n)].frame, false)]
    ensures Owned(v, parents)
  {
    var from, to := Page(parent, n), Page(child, n);
    forall p, q {:trigger v.pages[p], v.pages[q]}
      | p in v.pages && q in v.pages && p != q && p.space != KERNEL && q.space != KERNEL
        && v.pages[p].frame == v.pages[q].frame
      ensures Shared(v, parents, p, q)
    {
      CowShared(vm, v, parents, parent, child, n, p, q);
    }
    forall p, q {:trigger v.pages[p], v.pages[q]}
      | p in v.pages && q in v.pages && p.space == KERNEL && q.space != KERNEL
      ensures v.pages[p].frame != v.pages[q].frame
    {
      var q0 := if q == to then from else q;
      assert vm.pages[p].frame != vm.pages[q0].frame;
    }
  }

  lemma CowShared(vm: Vm, v: Vm, parents: map<nat, nat>, parent: nat, child: nat, n: nat, p: Page, q: Page)
    requires Owned(vm, parents) && Page(parent, n) in vm.pages && parent != KERNEL && child != KERNEL
    requires child in parents && parents[child] == parent < child
    requires v.pages == vm.pages[Page(child, n) := Pte(vm.pages[Page(parent, n)].frame, false)]
    requires p in v.pages && q in v.pages && p != q && p.space != KERNEL && q.space != KERNEL
    requires v.pages[p].frame == v.pages[q].frame
    ensures Shared(v, parents, p, q)
  {
    var from, to := Page(parent, n), Page(child, n);
    assert Ancestor(parents, parent, child);
    if p == to || q == to {
      var x := if p == to then q else p;
      if x != from {
        assert Shared(vm, parents, x, from);
        if vm.pages[x].writable {
          AncestorTransitive(parents, x.space, parent, child);
        }
      }
    } else {
      assert Shared(vm, parents, p, q);
    }
  }

  lemma EntryUndisturbed(vm: Vm, v: Vm, p: Page, e: Pte, other: nat)
    requires WellFormed(vm) && v.pages == vm.pages[p := e] && v.data == vm.data && p.space != other
    ensures Undisturbed(vm, v, other)
  {
    UndisturbedSelf(vm, other);
    hide WellFormed;
  }

  // Fewer pages.
  lemma FewerOwned(vm: Vm, v: Vm, parents: map<nat, nat>)
    requires Owned(vm, parents)
    requires forall p {:trigger p in v.pages} {:trigger v.pages[p]} :: p in v.pages ==> p in vm.pages && v.pages[p] == vm.pages[p]
    ensures Owned(v, parents)
  {
    hide Ancestor;
  }

  // Clearing a page on its last unmapping cannot be seen: nobody else has the frame.
  lemma UnmapUndisturbed(vm: Vm, p: Page, other: nat)
    requires WellFormed(vm) && Counted(vm) && p in vm.pages && p.space != other
    ensures vm.base <= vm.pages[p].frame < vm.base + |vm.alloc.refs| <= |vm.data|
    ensures Undisturbed(vm, Unmap(vm, p), other)
  {
    HeldCount(vm, p);
    UnmapEffect(vm, p);
    UndisturbedSelf(vm, other);
    hide WellFormed, Unmap, Counted;
    var w := Unmap(vm, p);
    forall q | q in vm.pages && q.space == other
      ensures w.data[vm.pages[q].frame] == vm.data[vm.pages[q].frame]
    {
      if vm.pages[q].frame == vm.pages[p].frame && RefCount(vm, vm.pages[p].frame) <= 1 {
        SoleHolder(vm, p, q);
      }
    }
  }

  // ------------------------------------------------------------ whole operations

  lemma {:induction false} CowPagesIsolated(vm: Vm, parents: map<nat, nat>, parent: nat, child: nat, a: nat, b: nat)
    requires WellFormed(vm) && InUse(vm, child) && parent != KERNEL && b <= PAGE_LIMIT
    requires Owned(vm, parents) && child in parents && parents[child] == parent < child
    ensures CowPages(vm, parent, child, a, b).Some? ==>
      var v := CowPages(vm, parent, child, a, b).value;
      && Owned(v, parents) && v.data == vm.data
      && (forall q {:trigger Undisturbed(vm, v, q)} :: q != child ==> Undisturbed(vm, v, q))
    decreases b - a
  {
    hide WellFormed, MapCow, Mappable, Reachable, PageIn, Quiet, Owned, Undisturbed, InUse, Ancestor;
    if a >= b {
      AllUndisturbedSelf(vm);
    } else if Page(parent, a) !in vm.pages {
      CowPagesIsolated(vm, parents, parent, child, a + 1, b);
    } else {
      var f := vm.pages[Page(parent, a)].frame;
      assert InUse(vm, child) ==> child != KERNEL by { InUseUser(vm, child); }
      UserReachable(vm, child, a);
      UserMappable(vm, Page(parent, a));
      MapCowEffect(vm, child, a, f);
      var r := MapCow(vm, child, a, f);
      if r.Some? {
        CowOwned(vm, r.value, parents, parent, child, a);
        InUseKept(vm, r.value, child);
        CowPagesIsolated(r.value, parents, parent, child, a + 1, b);
        var s := CowPages(r.value, parent, child, a + 1, b);
        if s.Some? {
          forall q | q != child
            ensures Undisturbed(vm, s.value, q)
          {
            EntryUndisturbed(vm, r.value, Page(child, a), Pte(f, false), q);
            UndisturbedTransitive(vm, r.value, s.value, q);
          }
        }
      }
    }
  }

  lemma InUseUser(vm: Vm, space: nat)
    requires InUse(vm, space)
    ensures space != KERNEL
  {
  }

  lemma InUseKept(vm: Vm, v: Vm, space: nat)
    requires InUse(vm, space)
    requires forall t {:trigger t in v.tables} :: t in vm.tables ==> t in v.tables
    ensures InUse(v, space)
  {
  }

  lemma AllUndisturbedSelf(vm: Vm)
    requires WellFormed(vm)
    ensures forall q {:trigger Undisturbed(vm, vm, q)} :: Undisturbed(vm, vm, q)
  {
    hide WellFormed, Undisturbed;
    forall q
      ensures Undisturbed(vm, vm, q)
    {
      UndisturbedSelf(vm, q);
    }
  }

  // Counts are nobody's view.
  lemma AllocOwned(vm: Vm, v: Vm, parents: map<nat, nat>)
    requires WellFormed(vm) && Owned(vm, parents) && v.pages == vm.pages && v.data == vm.data
    ensures Owned(v, parents)
    ensures forall q {:trigger Undisturbed(vm, v, q)} :: Undisturbed(vm, v, q)
  {
    PoolSize(vm);
    AllUndisturbedSelf(vm);
    hide WellFormed, Ancestor;
  }

  // Fork: only the child's view changes.
  lemma {:induction false} CopyAreasIsolated(vm: Vm, parents: map<nat, nat>, parent: nat, child: nat, areas: seq<Vma>)
    requires WellFormed(vm) && InUse(vm, child) && parent != KERNEL && Bounded(areas)
    requires Owned(vm, parents) && child in parents && parents[child] == parent < child
    ensures CopyAreas(vm, parent, child, areas).Some? ==>
      var v := CopyAreas(vm, parent, child, areas).value;
      && Owned(v, parents) && v.data == vm.data
      && (forall q {:trigger Undisturbed(vm, v, q)} :: q != child ==> Undisturbed(vm, v, q))
    decreases |areas|
  {
    hide WellFormed, CowPages, IncPages, Bounded, Owned, Undisturbed, InUse;
    if areas == [] {
      AllUndisturbedSelf(vm);
    } else {
      Counting.BoundedTail(areas);
      var a, b := AreaFirst(areas[0]), AreaLimit(areas[0]);
      var v := IncPages(vm, parent, a, b);
      AllocOwned(vm, v, parents);
      InUseKept(vm, v, child);
      CowPagesIsolated(v, parents, parent, child, a, b);
      var r := CowPages(v, parent, child, a, b);
      if r.Some? {
        CopyAreasIsolated(r.value, parents, parent, child, areas[1..]);
        var s := CopyAreas(r.value, parent, child, areas[1..]);
        if s.Some? {
          forall q | q != child
            ensures Undisturbed(vm, s.value, q)
          {
            UndisturbedTransitive(vm, v, r.value, q);
            UndisturbedTransitive(vm, r.value, s.value, q);
          }
        }
      }
    }
  }

  lemma {:induction false} UnmapPagesIsolated(vm: Vm, parents: map<nat, nat>, space: nat, a: nat, b: nat)
    requires WellFormed(vm) && Counted(vm) && space != KERNEL && Owned(vm, parents)
    ensures var v := UnmapPages(vm, space, a, b);
      && Owned(v, parents)
      && (forall q {:trigger Undisturbed(vm, v, q)} :: q != space ==> Undisturbed(vm, v, q))
    decreases b - a
  {
    hide WellFormed, Counted, Owned, Undisturbed, Unmap, UnmapPages;
    var p := Page(space, a);
    if a >= b {
      AllUndisturbedSelf(vm);
      UnmapPagesEnd(vm, space, a, b);
    } else {
      UnmapPagesStep(vm, space, a, b);
      if p !in vm.pages {
        UnmapPagesIsolated(vm, parents, space, a + 1, b);
      } else {
        var w := Unmap(vm, p);
        UnmapOwned(vm, parents, p);
        UnmapPagesIsolated(w, parents, space, a + 1, b);
        var v := UnmapPages(w, space, a + 1, b);
        forall q | q != space
          ensures Undisturbed(vm, v, q)
        {
          UnmapUndisturbed(vm, p, q);
          UndisturbedTransitive(vm, w, v, q);
        }
      }
    }
  }

  lemma UnmapOwned(vm: Vm, parents: map<nat, nat>, p: Page)
    requires WellFormed(vm) && Counted(vm) && p in vm.pages && Owned(vm, parents)
    ensures vm.base <= vm.pages[p].frame < vm.base + |vm.alloc.refs| <= |vm.data|
    ensures Owned(Unmap(vm, p), parents)
  {
    hide WellFormed, Counted, Owned, Unmap;
    HeldCount(vm, p);
    UnmapEffect(vm, p);
    FewerOwned(vm, Unmap(vm, p), parents);
  }

  // Exit: nobody else's view changes.
  lemma {:induction false} ReleaseIsolated(vm: Vm, parents: map<nat, nat>, space: nat, areas: seq<Vma>)
    requires WellFormed(vm) && Counted(vm) && space != KERNEL && Owned(vm, parents)
    ensures var v := ReleaseAreas(vm, space, areas);
      && Owned(v, parents)
      && (forall q {:trigger Undisturbed(vm, v, q)} :: q != space ==> Undisturbed(vm, v, q))
    decreases |areas|
  {
    hide WellFormed, Counted, Owned, Undisturbed, UnmapPages;
    if areas == [] {
      AllUndisturbedSelf(vm);
    } else {
      var a, b := AreaFirst(areas[0]), UnmapLimit(areas[0]);
      UnmapPagesIsolated(vm, parents, space, a, b);
      var w := UnmapPages(vm, space, a, b);
      ReleaseIsolated(w, parents, space, areas[1..]);
      var v := ReleaseAreas(w, space, areas[1..]);
      forall q | q != space
        ensures Undisturbed(vm, v, q)
      {
        UndisturbedTransitive(vm, w, v, q);
      }
    }
  }

  // A fault: only the faulting process gets anything.
  lemma AccessIsolated(vm: Vm, parents: map<nat, nat>, space: nat, areas: seq<Vma>, a: nat, write: bool)
    requires WellFormed(vm) && InUse(vm, space) && Private(a) && Owned(vm, parents)
    ensures Access(vm, space, areas, a, write).Some? ==>
      var v := Access(vm, space, areas, a, write).value;
      && Owned(v, parents)
      && (forall q {:trigger Undisturbed(vm, v, q)} :: q != space ==> Undisturbed(vm, v, q))
  {
    hide WellFormed, MapPage, Reachable, Mappable, FreeFrame, PageIn, ZeroPrefix, Quiet, Split, Covered, Owned, Undisturbed;
    PrivateReachable(vm, space, a);
    AllUndisturbedSelf(vm);
    var p := UserPage(space, a);
    var r := Access(vm, space, areas, a, write);
    if r.Some? && !Permitted(vm, space, a, write) {
      if p in vm.pages {
        SplitEffect(vm, p);
      } else {
        MapPageEffect(vm, space, PageOf(a));
      }
      FreshOwned(vm, r.value, parents, p, r.value.pages[p]);
      forall q | q != space
        ensures Undisturbed(vm, r.value, q)
      {
        FreshUndisturbed(vm, r.value, p, r.value.pages[p], q);
      }
    }
  }

  lemma PagesUndisturbed(vm: Vm, v: Vm, q: nat)
    requires WellFormed(vm) && v.data == vm.data
    requires forall p: Page {:trigger p in v.pages} {:trigger v.pages[p]} {:trigger p in vm.pages} :: p.space == q ==>
               (p in v.pages <==> p in vm.pages) && (p in vm.pages ==> v.pages[p] == vm.pages[p])
    ensures Undisturbed(vm, v, q)
  {
    UndisturbedSelf(vm, q);
    hide WellFormed;
  }

  // A new space, and a space that goes.
  lemma AddSpaceIsolated(vm: Vm, parents: map<nat, nat>, alias: nat, pid: nat)
    requires WellFormed(vm) && Adoptable(vm, alias, pid) && Owned(vm, parents)
    ensures AddSpace(vm, alias, pid).Some? ==>
      var v := AddSpace(vm, alias, pid).value;
      && Owned(v, parents) && v.data == vm.data
      && (forall q {:trigger Undisturbed(vm, v, q)} :: q != KERNEL ==> Undisturbed(vm, v, q))
  {
    hide WellFormed, MapPage, Reachable, Mappable, FreeFrame, KernelOnly, PageIn, ZeroPrefix, Quiet, Owned, Undisturbed;
    MappedAlias(vm, alias, pid);
    var r := MapPage(vm, KERNEL, alias);
    var p := Page(KERNEL, alias);
    if r.Some? {
      var v := r.value;
      if p in vm.pages {
        MapPagePresent(vm, KERNEL, alias);
        FewerOwned(vm, v, parents);
      } else {
        MapPageEffect(vm, KERNEL, alias);
        FreshOwned(vm, v, parents, p, v.pages[p]);
      }
      var w := AddSpace(vm, alias, pid).value;
      FewerOwned(v, w, parents);
      forall q | q != KERNEL
        ensures Undisturbed(vm, w, q)
      {
        PagesUndisturbed(vm, w, q);
      }
    }
  }

  lemma DropIsolated(vm: Vm, parents: map<nat, nat>, space: nat)
    requires WellFormed(vm) && Owned(vm, parents)
    ensures var v := DropSpace(vm, space);
      && Owned(v, parents)
      && (forall q {:trigger Undisturbed(vm, v, q)} :: q != space ==> Undisturbed(vm, v, q))
  {
    hide WellFormed, Owned, Undisturbed;
    var v := DropSpace(vm, space);
    FewerOwned(vm, v, parents);
    forall q | q != space
      ensures Undisturbed(vm, v, q)
    {
      PagesUndisturbed(vm, v, q);
    }
  }

  // --------------------------------------------------------------------- stores

  // A store to a page its process may write.
  function StoreByte(vm: Vm, space: nat, a: nat, b: Byte): Vm
    requires UserPage(space, a) in vm.pages && vm.pages[UserPage(space, a)].frame < |vm.data|
  {
    var f := vm.pages[UserPage(space, a)].frame;
    SetData(vm, f, vm.data[f][OffsetOf(a) := b])
  }

  // Exactly who sees a store: those who show the same frame at the same page, and they are
  // the process itself and descendants of it that have not written there.
  lemma StoreVisible(vm: Vm, parents: map<nat, nat>, space: nat, a: nat, b: Byte, other: nat, x: nat)
    requires WellFormed(vm) && Owned(vm, parents) && space != KERNEL && other != KERNEL
    requires Permitted(vm, space, a, true)
    ensures forall p {:trigger vm.pages[p]} :: p in vm.pages ==> vm.pages[p].frame < |vm.data|
    ensures var v := StoreByte(vm, space, a, b);
      View(v, other, x) ==
        if x == a && UserPage(other, a) in vm.pages
           && vm.pages[UserPage(other, a)].frame == vm.pages[UserPage(space, a)].frame
        then Some(b) else View(vm, other, x)
    ensures UserPage(other, a) in vm.pages
            && vm.pages[UserPage(other, a)].frame == vm.pages[UserPage(space, a)].frame ==>
              other == space || Ancestor(parents, space, other)
  {
    FramesInData(vm);
    hide WellFormed, Ancestor;
    var p, q := UserPage(space, a), UserPage(other, x);
    if Private(x) && PageOf(x) == PageOf(a) && OffsetOf(x) == OffsetOf(a) {
      SameAddress(x, a);
    }
    hide PageOf, Canonical, OffsetOf, HwPml4;
    if q in vm.pages && vm.pages[q].frame == vm.pages[p].frame && q != p {
      assert Shared(vm, parents, p, q);
    }
    var r := UserPage(other, a);
    if r in vm.pages && vm.pages[r].frame == vm.pages[p].frame && r != p {
      assert Shared(vm, parents, p, r);
    }
  }

  lemma FramesInData(vm: Vm)
    requires WellFormed(vm)
    ensures forall p {:trigger vm.pages[p]} :: p in vm.pages ==> vm.pages[p].frame < |vm.data|
  {
  }

  lemma StoreIsolated(vm: Vm, parents: map<nat, nat>, space: nat, a: nat, b: Byte, other: nat)
    requires WellFormed(vm) && Owned(vm, parents) && space != KERNEL && other != KERNEL && other != space
    requires Permitted(vm, space, a, true) && !Ancestor(parents, space, other)
    ensures vm.pages[UserPage(space, a)].frame < |vm.data|
    ensures Undisturbed(vm, StoreByte(vm, space, a, b), other)
  {
    FramesInData(vm);
    UndisturbedSelf(vm, other);
    hide WellFormed, Ancestor;
    var p := UserPage(space, a);
    forall q | q in vm.pages && q.space == other
      ensures vm.pages[q].frame != vm.pages[p].frame
    {
      assert vm.pages[q].frame == vm.pages[p].frame ==> Shared(vm, parents, p, q);
    }
  }

  // ------------------------------------------------------- the pages of the kernel

  // No two pages of the kernel show one frame.
  ghost predicate KernelApart(vm: Vm) {
    forall p, r {:trigger vm.pages[p], vm.pages[r]} ::
      p in vm.pages && r in vm.pages && p != r && p.space == KERNEL && r.space == KERNEL ==>
        vm.pages[p].frame != vm.pages[r].frame
  }

  lemma FreshApart(vm: Vm, v: Vm, p: Page, e: Pte)
    requires WellFormed(vm) && KernelApart(vm) && v.pages == vm.pages[p := e] && FreeFrame(vm, e.frame)
    ensures KernelApart(v)
  {
    FreeUnheld(vm, e.frame);
    hide WellFormed, FreeFrame;
  }

  lemma UndisturbedApart(vm: Vm, v: Vm)
    requires KernelApart(vm) && Undisturbed(vm, v, KERNEL)
    ensures KernelApart(v)
  {
  }

  lemma DropApart(vm: Vm, space: nat)
    requires KernelApart(vm)
    ensures KernelApart(DropSpace(vm, space))
  {
  }

  lemma AddSpaceApart(vm: Vm, alias: nat, pid: nat)
    requires WellFormed(vm) && Adoptable(vm, alias, pid) && KernelApart(vm)
    ensures AddSpace(vm, alias, pid).Some? ==> KernelApart(AddSpace(vm, alias, pid).value)
  {
    hide WellFormed, MapPage, Reachable, Mappable, FreeFrame, KernelOnly, PageIn, ZeroPrefix, Quiet;
    MappedAlias(vm, alias, pid);
    var r, p := MapPage(vm, KERNEL, alias), Page(KERNEL, alias);
    if r.Some? {
      if p in vm.pages {
        MapPagePresent(vm, KERNEL, alias);
      } else {
        MapPageEffect(vm, KERNEL, alias);
        FreshApart(vm, r.value, p, r.value.pages[p]);
      }
    }
  }

  // A store to a page of the kernel that shows no table is nobody's.
  lemma KernelStoreIsolated(vm: Vm, parents: map<nat, nat>, p: Page, fr: Frame, q: nat)
    requires WellFormed(vm) && Owned(vm, parents) && p in vm.pages && p.space == KERNEL && q != KERNEL
    ensures vm.pages[p].frame < |vm.data|
    ensures Undisturbed(vm, SetData(vm, vm.pages[p].frame, fr), q)
  {
    FramesInData(vm);
    UndisturbedSelf(vm, q);
    hide WellFormed;
  }

  // ------------------------------------------------------------ top-level tables

  // No space came or went.
  ghost predicate TopsSame(vm: Vm, v: Vm) {
    forall p: nat {:trigger Top(p)} ::
      && (Top(p) in v.tables <==> Top(p) in vm.tables)
      && (Top(p) in vm.tables ==> v.tables[Top(p)] == vm.tables[Top(p)])
  }

  lemma PathTops(vm: Vm, space: nat, n: nat)
    requires WellFormed(vm) && Reachable(vm, space, n)
    ensures EnsurePath(vm, space, n).Some? ==> TopsSame(vm, EnsurePath(vm, space, n).value)
  {
    hide WellFormed, Reachable, EnsurePath;
    if EnsurePath(vm, space, n).Some? {
      forall p: nat {:trigger Top(p)}
        ensures Top(p) in EnsurePath(vm, space, n).value.tables <==> Top(p) in vm.tables
      {
        if Top(p) !in vm.tables {
          PathTables(vm, space, n, p);
        }
      }
    }
  }

  lemma CowTops(vm: Vm, space: nat, n: nat, f: nat)
    requires WellFormed(vm) && Reachable(vm, space, n) && Mappable(vm, f)
    ensures MapCow(vm, space, n, f).Some? ==> TopsSame(vm, MapCow(vm, space, n, f).value)
  {
    hide WellFormed, Reachable, EnsurePath, Mappable;
    PathTops(vm, space, n);
  }

  lemma AccessTops(vm: Vm, space: nat, areas: seq<Vma>, a: nat, write: bool)
    requires WellFormed(vm) && InUse(vm, space) && Private(a)
    ensures Access(vm, space, areas, a, write).Some? ==> TopsSame(vm, Access(vm, space, areas, a, write).value)
  {
    hide WellFormed, Reachable, EnsurePath, MapPage, Split, Covered, PageIn, FreeFrame, Mappable;
    PrivateReachable(vm, space, a);
    PathTops(vm, space, PageOf(a));
    MapPageTables(vm, space, PageOf(a));
    if UserPage(space, a) in vm.pages {
      SplitEffect(vm, UserPage(space, a));
    }
  }

  lemma {:induction false} CowPagesTops(vm: Vm, parent: nat, child: nat, a: nat, b: nat)
    requires WellFormed(vm) && InUse(vm, child) && parent != KERNEL && b <= PAGE_LIMIT
    ensures CowPages(vm, parent, child, a, b).Some? ==> TopsSame(vm, CowPages(vm, parent, child, a, b).value)
    decreases b - a
  {
    hide WellFormed, MapCow, Mappable, Reachable, PageIn, Quiet;
    if a < b {
      if Page(parent, a) !in vm.pages {
        CowPagesTops(vm, parent, child, a + 1, b);
      } else {
        var f := vm.pages[Page(parent, a)].frame;
        UserReachable(vm, child, a);
        UserMappable(vm, Page(parent, a));
        MapCowEffect(vm, child, a, f);
        CowTops(vm, child, a, f);
        var r := MapCow(vm, child, a, f);
        if r.Some? {
          CowPagesTops(r.value, parent, child, a + 1, b);
        }
      }
    }
  }

  lemma {:induction false} CopyAreasTops(vm: Vm, parent: nat, child: nat, areas: seq<Vma>)
    requires WellFormed(vm) && InUse(vm, child) && parent != KERNEL && Bounded(areas)
    ensures CopyAreas(vm, parent, child, areas).Some? ==> TopsSame(vm, CopyAreas(vm, parent, child, areas).value)
    decreases |areas|
  {
    hide WellFormed, CowPages, IncPages, Bounded, TopsSame, InUse;
    if areas == [] {
      TopsSameSelf(vm);
    } else {
      Counting.BoundedTail(areas);
      var a, b := AreaFirst(areas[0]), AreaLimit(areas[0]);
      var v := IncPages(vm, parent, a, b);
      InUseKept(vm, v, child);
      TopsOfTables(vm, v);
      CowPagesTops(v, parent, child, a, b);
      var r := CowPages(v, parent, child, a, b);
      if r.Some? {
        CopyAreasTops(r.value, parent, child, areas[1..]);
        var s := CopyAreas(r.value, parent, child, areas[1..]);
        if s.Some? {
          TopsSameTransitive(vm, v, r.value);
          TopsSameTransitive(vm, r.value, s.value);
        }
      }
    }
  }

  lemma TopsSameSelf(vm: Vm)
    ensures TopsSame(vm, vm)
  {
  }

  lemma TopsOfTables(vm: Vm, v: Vm)
    requires v.tables == vm.tables
    ensures TopsSame(vm, v)
  {
  }

  lemma TopsSameTransitive(vm: Vm, v: Vm, w: Vm)
    requires TopsSame(vm, v) && TopsSame(v, w)
    ensures TopsSame(vm, w)
  {
  }

  lemma AddSpaceTops(vm: Vm, alias: nat, pid: nat)
    requires WellFormed(vm) && Adoptable(vm, alias, pid)
    ensures AddSpace(vm, alias, pid).Some? ==>
      var v := AddSpace(vm, alias, pid).value;
      && InUse(v, pid) && Page(KERNEL, alias) in v.pages
      && v.pages[Page(KERNEL, alias)].frame == v.tables[Top(pid)]
      && v.pages - {Page(KERNEL, alias)} == vm.pages - {Page(KERNEL, alias)}
      && TopsSame(vm, v.(tables := v.tables - {Top(pid)}))
  {
    hide WellFormed, MapPage, EnsurePath, Reachable, Mappable, FreeFrame, KernelOnly, PageIn, Quiet;
    MappedAlias(vm, alias, pid);
    PathTops(vm, KERNEL, alias);
    MapPageTables(vm, KERNEL, alias);
  }
}
