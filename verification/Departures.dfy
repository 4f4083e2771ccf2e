/**
  Where the source does something other than its callers expect, and exactly when: areas
  that end on a page boundary, unmapping a mapping by its length, splitting a page that
  nobody else shares.
 */
module Departures {
  import Conservation
  import opened Exactness
  import opened Runs
  import opened Spaces
  import opened VirtualMemory

  // ------------------------------------------------------------- the heap's areas

  // The areas of a heap never share a page, and lie below its top.
  predicate HeapOk(t: Task) {
    && t.heapTop > 0 && t.heapTop % 4096 == 0
    && PageDisjoint(t.areas)
    && forall i {:trigger t.areas[i]} :: 0 <= i < |t.areas| ==> t.areas[i].end < t.heapTop
  }

  // Whatever is mapped, of any length, and unmapped in between.
  lemma MmapKeepsHeap(t: Task, length: nat)
    requires HeapOk(t)
    ensures HeapOk(AfterMmap(t, length))
  {
    var v, u := Mapping(t, length), AfterMmap(t, length);
    forall i | 0 <= i < |t.areas|
      ensures AreaLimit(t.areas[i]) <= AreaFirst(v) || AreaLimit(t.areas[i]) == 0
    {
      assert t.areas[i].end < t.heapTop;
    }
    forall i, j {:trigger u.areas[i], u.areas[j]} | 0 <= i < j < |u.areas|
      ensures AreaLimit(u.areas[i]) <= AreaFirst(u.areas[j]) || AreaLimit(u.areas[j]) <= AreaFirst(u.areas[i])
        || AreaLimit(u.areas[i]) == 0 || AreaLimit(u.areas[j]) == 0
    {
      assert u.areas[i] == t.areas[i];
      assert j < |t.areas| ==> u.areas[j] == t.areas[j];
      assert j == |t.areas| ==> u.areas[j] == v;
    }
  }

  lemma MunmapKeepsHeap(t: Task, i: nat)
    requires HeapOk(t) && i < |t.areas|
    ensures HeapOk(t.(areas := Without(t.areas, i)))
  {
    var w := Without(t.areas, i);
    assert forall j {:trigger w[j]} :: 0 <= j < |w| ==> w[j] == t.areas[if j < i then j else j + 1];
  }

  // k_munmap looks for an area that reaches `start + n`, one byte more than the mapping
  // has: what was mapped with a length is found exactly by a smaller one.
  lemma MunmapOwnIff(t: Task, length: nat, n: nat)
    requires HeapOk(t)
    ensures var u, v := AfterMmap(t, length), Mapping(t, length);
            FirstCover(u.areas, v.start, v.start + n) < |u.areas| <==> n < length
  {
    var u, v := AfterMmap(t, length), Mapping(t, length);
    var i := FirstCover(u.areas, v.start, v.start + n);
    assert u.areas[|t.areas|] == v;
    assert forall j {:trigger t.areas[j]} :: 0 <= j < |t.areas| ==> u.areas[j] == t.areas[j] && t.areas[j].end < v.start;
  }

  // ------------------------------------------------------------------ the last page

  // Areas as mappings and images have them: not empty, or empty at a page boundary.
  predicate Plain(areas: seq<Vma>) {
    forall i {:trigger areas[i]} :: 0 <= i < |areas| ==>
      areas[i].start <= areas[i].end || (areas[i].start % 4096 == 0 && areas[i].end + 1 == areas[i].start)
  }

  // The page that begins where an area ends.
  predicate EndsAt(areas: seq<Vma>, n: nat) {
    exists i :: 0 <= i < |areas| && areas[i].start <= areas[i].end == 4096 * n
  }

  lemma ReleasedIsInside(v: Vma, n: nat)
    requires v.start <= v.end || (v.start % 4096 == 0 && v.end + 1 == v.start)
    ensures AreaFirst(v) <= n < UnmapLimit(v) <==> AreaFirst(v) <= n < AreaLimit(v) && v.end != 4096 * n
  {
  }

  // Of disjoint areas only the page's own one decides.
  lemma OwnRelease(areas: seq<Vma>, k: nat, n: nat)
    requires PageDisjoint(areas) && Plain(areas) && k < |areas| && AreaFirst(areas[k]) <= n < AreaLimit(areas[k])
    ensures InRelease(areas, n) <==> n < UnmapLimit(areas[k])
  {
    if InRelease(areas, n) {
      var j :| 0 <= j < |areas| && AreaFirst(areas[j]) <= n < UnmapLimit(areas[j]);
      ReleasedIsInside(areas[j], n);
      OneArea(areas, j, k, n);
    }
  }

  lemma OwnEnd(areas: seq<Vma>, k: nat, n: nat)
    requires PageDisjoint(areas) && Plain(areas) && k < |areas| && AreaFirst(areas[k]) <= n < AreaLimit(areas[k])
    ensures EndsAt(areas, n) <==> areas[k].end == 4096 * n
  {
    if EndsAt(areas, n) {
      var i :| 0 <= i < |areas| && areas[i].start <= areas[i].end == 4096 * n;
      OneArea(areas, i, k, n);
    }
  }

  // The release of a process leaves a page of an area mapped exactly when the area ends at
  // the first byte of that page.
  lemma LeakIff(areas: seq<Vma>, n: nat)
    requires PageDisjoint(areas) && Plain(areas) && InArea(areas, n)
    ensures !InRelease(areas, n) <==> EndsAt(areas, n)
  {
    var k :| 0 <= k < |areas| && AreaFirst(areas[k]) <= n < AreaLimit(areas[k]);
    ReleasedIsInside(areas[k], n);
    OwnRelease(areas, k, n);
    OwnEnd(areas, k, n);
  }

  lemma OneArea(areas: seq<Vma>, i: nat, j: nat, n: nat)
    requires PageDisjoint(areas) && i < |areas| && j < |areas|
    requires AreaFirst(areas[i]) <= n < AreaLimit(areas[i]) && AreaFirst(areas[j]) <= n < AreaLimit(areas[j])
    ensures i == j
  {
  }

  // After the release, what is still mapped in the process's space: exactly these pages.
  lemma LeftBehindIff(vm: Vm, space: nat, areas: seq<Vma>, n: nat)
    requires WellFormed(vm) && Counted(vm) && space != KERNEL && AllExact(vm)
    requires PageDisjoint(areas) && Plain(areas) && InArea(areas, n)
    ensures Page(space, n) in ReleaseAreas(vm, space, areas).pages <==> Page(space, n) in vm.pages && EndsAt(areas, n)
  {
    hide WellFormed, Counted, AllExact, ReleaseAreas, InRelease, EndsAt;
    ReleaseExact(vm, space, areas);
    LeakIff(areas, n);
  }

  // ---------------------------------------------------------------- orphaned frames

  // A split drops a count and never frees: the old frame is of no use to anybody
  // afterwards exactly when no other page showed it.
  lemma OrphanIff(vm: Vm, p: Page)
    requires WellFormed(vm) && p in vm.pages && p.space != KERNEL && Split(vm, p).Some?
    ensures vm.base < vm.pages[p].frame < vm.base + |vm.alloc.refs|
    ensures var f := vm.pages[p].frame;
            Conservation.Lost(Split(vm, p).value, f - vm.base) <==> forall q :: q in vm.pages && vm.pages[q].frame == f ==> q == p
  {
    hide WellFormed, Split, FreeFrame, Mappable;
    SplitEffect(vm, p);
    UserMappable(vm, p);
    var v, f := Split(vm, p).value, vm.pages[p].frame;
    NotFreeNotTable(vm, p);
    StillInUse(vm, v, f);
    if q :| q in vm.pages && vm.pages[q].frame == f && q != p {
      assert q in v.pages && v.pages[q].frame == f;
    }
  }

  lemma NotFreeNotTable(vm: Vm, p: Page)
    requires WellFormed(vm) && p in vm.pages && p.space != KERNEL
    ensures vm.pages[p].frame >= vm.base && vm.pages[p].frame - vm.base !in vm.alloc.free && !IsTable(vm, vm.pages[p].frame)
  {
    hide PoolOk;
  }

  lemma StillInUse(vm: Vm, v: Vm, f: nat)
    requires f >= vm.base && f - vm.base !in vm.alloc.free && !IsTable(vm, f)
    requires v.tables == vm.tables && v.base == vm.base && exists b :: vm.alloc.free == [b] + v.alloc.free
    ensures f - vm.base !in v.alloc.free && !IsTable(v, f)
  {
  }
}
