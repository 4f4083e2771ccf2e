/**
  The abstract virtual memory that sys/paging.c maintains: for every address space the
  tables that exist and the pages that are mapped, over one pool of frames.

  An address space is named by the pid of its process.  The top quarter reached through
  entry 511 of the top-level table is the same in all of them and has the name KERNEL.
 */
module VirtualMemory {
  import opened Addressing
  import opened FrameAllocator
  import opened Memory
  import opened Wrappers

  const KERNEL: nat := 0

  // A paging structure: level 4 is the top-level table, level 1 holds page entries.
  // `prefix` is the page number of any page below it, without the fields it still cuts.
  datatype Table = Table(space: nat, level: nat, prefix: nat)

  datatype Page = Page(space: nat, number: nat)

  datatype Pte = Pte(frame: nat, writable: bool)

  datatype Vm = Vm(
    base: nat,                   // frame number of block 0
    alloc: Frames,
    tables: map<Table, nat>,     // the frame of each table
    pages: map<Page, Pte>,       // the page entries that are present
    data: seq<Frame>             // the bytes of every frame that is not a table
  )

  function Top(space: nat): Table { Table(space, 4, 0) }

  const KERNEL_TOP := Table(KERNEL, 3, KERNEL_SLOT)

  // The table that entry `i` of `t` points at.
  function Child(t: Table, i: nat): Table
    requires t.level > 0
  {
    Table(if t.level == 4 && i == KERNEL_SLOT then KERNEL else t.space, t.level - 1, t.prefix * 512 + i)
  }

  function Parent(t: Table): Table {
    Table(t.space, t.level + 1, t.prefix / 512)
  }

  function SpaceOf(space: nat, slot: nat): nat {
    if slot == KERNEL_SLOT then KERNEL else space
  }

  // The three tables below the top on the way to page `n`, and the page itself.
  function Pdpt(space: nat, n: nat): Table { Table(SpaceOf(space, n / 512 / 512 / 512), 3, n / 512 / 512 / 512) }
  function Pd(space: nat, n: nat): Table { Table(SpaceOf(space, n / 512 / 512 / 512), 2, n / 512 / 512) }
  function Pt(space: nat, n: nat): Table { Table(SpaceOf(space, n / 512 / 512 / 512), 1, n / 512) }
  function PageIn(space: nat, n: nat): Page { Page(SpaceOf(space, n / 512 / 512 / 512), n) }

  // The entry of a page, if it is mapped.
  function Entry(vm: Vm, p: Page): Option<Pte> {
    if p in vm.pages then Some(vm.pages[p]) else None
  }

  function PtOf(p: Page): Table { Table(p.space, 1, p.number / 512) }

  ghost predicate IsTable(vm: Vm, f: nat) {
    exists t :: t in vm.tables && vm.tables[t] == f
  }

  // ------------------------------------------------------------ well-formedness

  predicate FreeFrame(vm: Vm, f: nat) {
    f - vm.base in vm.alloc.free
  }

  ghost predicate PoolOk(vm: Vm) {
    && vm.alloc.Valid()
    && vm.base + |vm.alloc.refs| <= |vm.data| <= 0x100_0000_0000
    && (forall b :: b in vm.alloc.free ==> vm.alloc.refs[b] == 0)
  }

  // Where a table may be: below a table that exists.
  predicate Placed(vm: Vm, t: Table) {
    && 1 <= t.level <= 4
    && (t.level == 4 ==> t.space != KERNEL && t.prefix == 0)
    && (t.level == 3 ==> t.prefix < 512 && t.prefix != SELF_SLOT)
    && (t.level == 3 ==> (t.space == KERNEL <==> t.prefix == KERNEL_SLOT))
    && (t.level < 4 && t != KERNEL_TOP ==> Parent(t) in vm.tables)
  }

  ghost predicate TablesOk(vm: Vm) {
    && KERNEL_TOP in vm.tables
    && (forall t {:trigger vm.tables[t]} :: t in vm.tables ==> vm.tables[t] < |vm.data| && !FreeFrame(vm, vm.tables[t]))
    && (forall t {:trigger Placed(vm, t)} :: t in vm.tables ==> Placed(vm, t))
    && (forall t, u {:trigger vm.tables[t], vm.tables[u]} :: t in vm.tables && u in vm.tables && vm.tables[t] == vm.tables[u] ==> t == u)
  }

  // Only the kernel maps tables, and only top-level ones, to fill them in.
  ghost predicate PagesOk(vm: Vm) {
    && (forall p {:trigger p in vm.pages} {:trigger vm.pages[p]} :: p in vm.pages ==>
          && vm.base < vm.pages[p].frame < vm.base + |vm.alloc.refs|
          && !FreeFrame(vm, vm.pages[p].frame)
          && PtOf(p) in vm.tables)
    && (forall p, t {:trigger vm.pages[p], vm.tables[t]} :: p in vm.pages && t in vm.tables && vm.pages[p].frame == vm.tables[t] ==>
          p.space == KERNEL && t.level == 4)
  }

  ghost predicate WellFormed(vm: Vm) {
    PoolOk(vm) && TablesOk(vm) && PagesOk(vm)
  }

  // ---------------------------------------------------------- taking a frame

  function NextFrame(vm: Vm): nat
    requires vm.alloc.Valid() && !vm.alloc.Exhausted()
  {
    vm.base + vm.alloc.free[0]
  }

  function TakeFrame(vm: Vm): Vm
    requires vm.alloc.Valid() && !vm.alloc.Exhausted()
  {
    vm.(alloc := vm.alloc.Take())
  }

  lemma TakenPool(vm: Vm)
    requires PoolOk(vm) && !vm.alloc.Exhausted()
    ensures PoolOk(TakeFrame(vm))
    ensures forall f {:trigger FreeFrame(TakeFrame(vm), f)} ::
              FreeFrame(TakeFrame(vm), f) ==> FreeFrame(vm, f) && f != NextFrame(vm)
    ensures FreeFrame(vm, NextFrame(vm))
    ensures vm.base < NextFrame(vm) < vm.base + |vm.alloc.refs| == vm.base + |TakeFrame(vm).alloc.refs|
    ensures TakeFrame(vm).alloc.refs[NextFrame(vm) - vm.base] == 1
  {
    TakeRest(vm.alloc);
    hide Frames.Take, Frames.Valid;
  }

  // Fewer free frames hurt nobody.
  lemma Shrunk(vm: Vm, v: Vm)
    requires WellFormed(vm) && PoolOk(v)
    requires v == vm.(alloc := v.alloc) && |v.alloc.refs| == |vm.alloc.refs|
    requires forall f {:trigger FreeFrame(v, f)} :: FreeFrame(v, f) ==> FreeFrame(vm, f)
    ensures WellFormed(v)
  {
    hide PoolOk, FreeFrame;
    assert forall t {:trigger Placed(v, t)} :: Placed(vm, t) ==> Placed(v, t);
  }

  // The taken frame is nobody's.
  lemma Taken(vm: Vm)
    requires WellFormed(vm) && !vm.alloc.Exhausted()
    ensures vm.alloc.Valid()
    ensures var v := TakeFrame(vm); var f := NextFrame(vm);
            && WellFormed(v)
            && v == vm.(alloc := v.alloc)
            && vm.base < f < vm.base + |vm.alloc.refs| && |v.alloc.refs| == |vm.alloc.refs|
            && !FreeFrame(v, f)
            && (forall t {:trigger v.tables[t]} :: t in v.tables ==> v.tables[t] != f)
            && (forall p {:trigger v.pages[p]} :: p in v.pages ==> v.pages[p].frame != f)
            && v.alloc.refs[f - vm.base] == 1
  {
    TakenPool(vm);
    Shrunk(vm, TakeFrame(vm));
  }

  // ------------------------------------------------------------------ linking

  function AddTable(vm: Vm, t: Table): Vm
    requires vm.alloc.Valid() && !vm.alloc.Exhausted()
  {
    TakeFrame(vm).(tables := vm.tables[t := NextFrame(vm)])
  }

  lemma AddTableWellFormed(vm: Vm, t: Table)
    requires WellFormed(vm) && !vm.alloc.Exhausted()
    requires t !in vm.tables && Placed(vm, t)
    ensures vm.alloc.Valid() && WellFormed(AddTable(vm, t))
  {
    Taken(vm);
    AddTableTaken(TakeFrame(vm), t, NextFrame(vm));
  }

  lemma AddTableTaken(v: Vm, t: Table, f: nat)
    requires WellFormed(v) && t !in v.tables && Placed(v, t)
    requires f < |v.data| && !FreeFrame(v, f)
    requires forall u {:trigger v.tables[u]} :: u in v.tables ==> v.tables[u] != f
    requires forall p {:trigger v.pages[p]} :: p in v.pages ==> v.pages[p].frame != f
    ensures WellFormed(v.(tables := v.tables[t := f]))
  {
    var w := v.(tables := v.tables[t := f]);
    assert PoolOk(w) by { PoolKept(v, w); }
    hide PoolOk, FreeFrame;
    assert forall u {:trigger Placed(w, u)} :: Placed(v, u) ==> Placed(w, u);
    assert forall g {:trigger FreeFrame(w, g)} :: FreeFrame(w, g) <==> FreeFrame(v, g) by { FreeKept(v, w); }
  }

  // v has the tables of vm and maybe more, and differs in nothing else a page can see.
  ghost predicate Grown(vm: Vm, v: Vm) {
    && v == vm.(alloc := v.alloc, tables := v.tables)
    && |v.alloc.refs| == |vm.alloc.refs|
    && (forall t {:trigger t in v.tables} {:trigger v.tables[t]} ::
          t in vm.tables ==> t in v.tables && v.tables[t] == vm.tables[t])
  }

  // The table is there already, or a frame is taken for it.
  ghost function EnsureTable(vm: Vm, t: Table): (r: Option<Vm>)
    requires WellFormed(vm) && Placed(vm, t)
    ensures r.Some? ==> WellFormed(r.value) && Grown(vm, r.value) && t in r.value.tables
  {
    if t in vm.tables then Some(vm)
    else if vm.alloc.Exhausted() then None
    else
      AddTableWellFormed(vm, t);
      Taken(vm);
      Some(AddTable(vm, t))
  }

  // Page `n` can be reached in address space `space`: not through the self entry.
  ghost predicate Reachable(vm: Vm, space: nat, n: nat) {
    && n / 512 / 512 / 512 < 512
    && n / 512 / 512 / 512 != SELF_SLOT
    && (n / 512 / 512 / 512 != KERNEL_SLOT ==> space != KERNEL && Top(space) in vm.tables)
  }

  lemma PathPlaced(vm: Vm, space: nat, n: nat)
    requires Reachable(vm, space, n) && WellFormed(vm)
    ensures Placed(vm, Pdpt(space, n))
    ensures forall v {:trigger Grown(vm, v)} :: Grown(vm, v) ==> Reachable(v, space, n)
    ensures Pdpt(space, n) in vm.tables ==> Placed(vm, Pd(space, n))
    ensures Pd(space, n) in vm.tables ==> Placed(vm, Pt(space, n))
    ensures PtOf(PageIn(space, n)) == Pt(space, n)
  {
  }

  lemma GrownTransitive(vm: Vm, v: Vm, w: Vm)
    requires Grown(vm, v) && Grown(v, w)
    ensures Grown(vm, w)
  {
  }

  ghost function EnsurePath(vm: Vm, space: nat, n: nat): (r: Option<Vm>)
    requires WellFormed(vm) && Reachable(vm, space, n)
    ensures r.Some? ==> WellFormed(r.value) && Grown(vm, r.value) && Pt(space, n) in r.value.tables
  {
    hide WellFormed, FreeFrame, Placed, Pdpt, Pd, Pt, EnsureTable, Reachable, Grown;
    PathPlaced(vm, space, n);
    var v3 :- EnsureTable(vm, Pdpt(space, n));
    PathPlaced(v3, space, n);
    var v2 :- EnsureTable(v3, Pd(space, n));
    GrownTransitive(vm, v3, v2);
    PathPlaced(v2, space, n);
    var v1 :- EnsureTable(v2, Pt(space, n));
    GrownTransitive(vm, v2, v1);
    Some(v1)
  }

  // --------------------------------------------------------------- page entries

  // A frame in the pool, in use, and not a table: what a page entry may hold.
  ghost predicate Mappable(vm: Vm, f: nat) {
    && vm.base < f < vm.base + |vm.alloc.refs|
    && !FreeFrame(vm, f)
    && (forall t {:trigger vm.tables[t]} :: t in vm.tables ==> vm.tables[t] != f)
  }

  function SetPage(vm: Vm, p: Page, e: Pte): Vm {
    vm.(pages := vm.pages[p := e])
  }

  lemma SetPageWellFormed(vm: Vm, p: Page, e: Pte)
    requires WellFormed(vm) && PtOf(p) in vm.tables && Mappable(vm, e.frame)
    ensures WellFormed(SetPage(vm, p, e))
  {
    hide PoolOk, FreeFrame;
    var v := SetPage(vm, p, e);
    PoolKept(vm, v);
    FreeKept(vm, v);
    assert forall t {:trigger Placed(v, t)} :: Placed(vm, t) ==> Placed(v, t);
  }

  lemma FreeKept(vm: Vm, v: Vm)
    requires v.alloc == vm.alloc && v.base == vm.base
    ensures forall g {:trigger FreeFrame(v, g)} :: FreeFrame(v, g) <==> FreeFrame(vm, g)
  {
  }

  lemma PoolKept(vm: Vm, v: Vm)
    requires PoolOk(vm) && v.alloc == vm.alloc && |v.data| == |vm.data| && v.base == vm.base
    ensures PoolOk(v)
  {
  }

  function SetData(vm: Vm, f: nat, fr: Frame): Vm
    requires f < |vm.data|
  {
    vm.(data := vm.data[f := fr])
  }

  lemma SetDataWellFormed(vm: Vm, f: nat, fr: Frame)
    requires WellFormed(vm) && f < |vm.data|
    ensures WellFormed(SetData(vm, f, fr))
  {
    hide PoolOk, FreeFrame;
    var v := SetData(vm, f, fr);
    PoolKept(vm, v);
    FreeKept(vm, v);
    assert forall t {:trigger Placed(v, t)} :: Placed(vm, t) ==> Placed(v, t);
  }

  // ------------------------------------------------------------ reference counts

  ghost function Holders(pages: map<Page, Pte>, f: nat): set<Page> {
    set p | p in pages && pages[p].frame == f
  }

  ghost function RefCount(vm: Vm, f: nat): int
    requires vm.base <= f < vm.base + |vm.alloc.refs|
  {
    vm.alloc.refs[f - vm.base]
  }

  // A count is never below the number of page entries that hold the frame.
  ghost predicate Counted(vm: Vm) {
    forall f {:trigger Holders(vm.pages, f)} :: vm.base <= f < vm.base + |vm.alloc.refs| ==>
      |Holders(vm.pages, f)| <= RefCount(vm, f)
  }

  // The count of a mapped frame is that number.
  ghost predicate Exact(vm: Vm) {
    forall p {:trigger vm.pages[p]} :: p in vm.pages ==>
      var f := vm.pages[p].frame;
      && vm.base <= f < vm.base + |vm.alloc.refs|
      && RefCount(vm, f) == |Holders(vm.pages, f)|
  }

  lemma HoldersInsert(pages: map<Page, Pte>, p: Page, e: Pte, f: nat)
    requires p !in pages
    ensures Holders(pages[p := e], f) == if f == e.frame then Holders(pages, f) + {p} else Holders(pages, f)
    ensures |Holders(pages[p := e], f)| == |Holders(pages, f)| + (if f == e.frame then 1 else 0)
  {
  }

  lemma HoldersRemove(pages: map<Page, Pte>, p: Page, f: nat)
    requires p in pages
    ensures Holders(pages - {p}, f) == Holders(pages, f) - {p}
    ensures |Holders(pages - {p}, f)| == |Holders(pages, f)| - (if f == pages[p].frame then 1 else 0)
  {
  }

  lemma HoldersReplace(pages: map<Page, Pte>, p: Page, e: Pte, f: nat)
    requires p in pages
    ensures |Holders(pages[p := e], f)|
         == |Holders(pages, f)| - (if f == pages[p].frame then 1 else 0) + (if f == e.frame then 1 else 0)
  {
    HoldersRemove(pages, p, f);
    HoldersInsert(pages - {p}, p, e, f);
    assert (pages - {p})[p := e] == pages[p := e];
  }

  // A frame counted once has one page entry.
  lemma SoleHolder(vm: Vm, p: Page, q: Page)
    requires Counted(vm) && p in vm.pages && q in vm.pages
    requires vm.base <= vm.pages[p].frame < vm.base + |vm.alloc.refs|
    requires RefCount(vm, vm.pages[p].frame) <= 1
    requires vm.pages[p].frame == vm.pages[q].frame
    ensures p == q
  {
    var h := Holders(vm.pages, vm.pages[p].frame);
    assert |h - {p}| == |h| - 1;
    assert q !in h - {p};
  }

  // ---------------------------------------------------- the page operations

  const CLEARED: nat := 519

  // The clearing loops of the source reach this far into the page.
  function Cleared(vm: Vm, f: nat): Vm
    requires f < |vm.data|
  {
    SetData(vm, f, ZeroPrefix(vm.data[f], CLEARED))
  }

  // A taken frame becomes the content of page `p`, writable.
  function MapTaken(vm: Vm, p: Page, content: Frame): Vm
    requires vm.alloc.Valid() && !vm.alloc.Exhausted() && NextFrame(vm) < |vm.data|
  {
    SetData(SetPage(TakeFrame(vm), p, Pte(NextFrame(vm), true)), NextFrame(vm), content)
  }

  lemma MapTakenSound(vm: Vm, p: Page, content: Frame)
    requires WellFormed(vm) && PtOf(p) in vm.tables && !vm.alloc.Exhausted()
    ensures vm.alloc.Valid() && NextFrame(vm) < |vm.data|
    ensures WellFormed(MapTaken(vm, p, content))
    ensures Counted(vm) ==> Counted(MapTaken(vm, p, content))
  {
    Taken(vm);
    var v := TakeFrame(vm);
    SetPageWellFormed(v, p, Pte(NextFrame(vm), true));
    var w := SetPage(v, p, Pte(NextFrame(vm), true));
    SetDataWellFormed(w, NextFrame(vm), content);
    if Counted(vm) {
      MapTakenCounted(vm, p, content);
    }
  }

  lemma MapTakenCounted(vm: Vm, p: Page, content: Frame)
    requires WellFormed(vm) && !vm.alloc.Exhausted() && Counted(vm)
    requires vm.alloc.Valid() && NextFrame(vm) < |vm.data|
    ensures Counted(MapTaken(vm, p, content))
  {
    TakenPool(vm);
    TakeRest(vm.alloc);
    hide WellFormed, Frames.Valid;
    var w := MapTaken(vm, p, content);
    var e := Pte(NextFrame(vm), true);
    forall f {:trigger Holders(w.pages, f)} | w.base <= f < w.base + |w.alloc.refs|
      ensures |Holders(w.pages, f)| <= RefCount(w, f)
    {
      if p in vm.pages {
        HoldersReplace(vm.pages, p, e, f);
      } else {
        HoldersInsert(vm.pages, p, e, f);
      }
      assert |Holders(vm.pages, f)| <= RefCount(vm, f);
    }
  }

  // sys/paging.c, map_phyaddr: page `n` is given a frame unless it has one, and the
  // start of the page is cleared either way.
  ghost function MapPage(vm: Vm, space: nat, n: nat): (r: Option<Vm>)
    requires WellFormed(vm) && Reachable(vm, space, n)
    ensures r.Some? ==> WellFormed(r.value)
  {
    var v :- EnsurePath(vm, space, n);
    var p := PageIn(space, n);
    if p in v.pages then
      SetDataWellFormed(v, v.pages[p].frame, ZeroPrefix(v.data[v.pages[p].frame], CLEARED));
      Some(Cleared(v, v.pages[p].frame))
    else if v.alloc.Exhausted() then None
    else
      PathPlaced(v, space, n);
      var content := ZeroPrefix(v.data[NextFrame(v)], CLEARED);
      MapTakenSound(v, p, content);
      Some(MapTaken(v, p, content))
  }

  lemma AddTableKeepsMappable(vm: Vm, t: Table, f: nat)
    requires WellFormed(vm) && Placed(vm, t) && Mappable(vm, f)
    ensures EnsureTable(vm, t).Some? ==> Mappable(EnsureTable(vm, t).value, f)
  {
    if t !in vm.tables && !vm.alloc.Exhausted() {
      Taken(vm);
      TakenPool(vm);
    }
  }

  lemma PathKeepsMappable(vm: Vm, space: nat, n: nat, f: nat)
    requires WellFormed(vm) && Reachable(vm, space, n) && Mappable(vm, f)
    ensures EnsurePath(vm, space, n).Some? ==> Mappable(EnsurePath(vm, space, n).value, f)
  {
    hide Mappable, PagesOk, PoolOk, FreeFrame, EnsureTable;
    PathPlaced(vm, space, n);
    AddTableKeepsMappable(vm, Pdpt(space, n), f);
    var v3 := EnsureTable(vm, Pdpt(space, n));
    if v3.Some? {
      PathPlaced(v3.value, space, n);
      AddTableKeepsMappable(v3.value, Pd(space, n), f);
      var v2 := EnsureTable(v3.value, Pd(space, n));
      if v2.Some? {
        PathPlaced(v2.value, space, n);
        AddTableKeepsMappable(v2.value, Pt(space, n), f);
      }
    }
  }

  // sys/paging.c, set_Cow: page `n` shows frame `f`, read-only.
  ghost function MapCow(vm: Vm, space: nat, n: nat, f: nat): (r: Option<Vm>)
    requires WellFormed(vm) && Reachable(vm, space, n) && Mappable(vm, f)
    ensures r.Some? ==> WellFormed(r.value)
  {
    PathKeepsMappable(vm, space, n, f);
    var v :- EnsurePath(vm, space, n);
    PathPlaced(v, space, n);
    SetPageWellFormed(v, PageIn(space, n), Pte(f, false));
    Some(SetPage(v, PageIn(space, n), Pte(f, false)))
  }

  // A count going up or down, of a frame in use.
  function IncRef(vm: Vm, f: nat): Vm
    requires vm.base <= f < vm.base + |vm.alloc.refs|
  {
    vm.(alloc := vm.alloc.Inc(f - vm.base))
  }

  function DecRef(vm: Vm, f: nat): Vm
    requires vm.base <= f < vm.base + |vm.alloc.refs|
  {
    vm.(alloc := vm.alloc.Dec(f - vm.base))
  }

  lemma RefWellFormed(vm: Vm, f: nat)
    requires WellFormed(vm) && vm.base <= f < vm.base + |vm.alloc.refs| && !FreeFrame(vm, f)
    ensures WellFormed(IncRef(vm, f)) && WellFormed(DecRef(vm, f))
  {
    assert PoolOk(IncRef(vm, f)) && PoolOk(DecRef(vm, f));
    Shrunk(vm, IncRef(vm, f));
    Shrunk(vm, DecRef(vm, f));
  }

  // sys/task_manager.c, cow: the page gets a frame of its own with the same bytes.  The
  // old frame loses a count and is not given back, even when nobody holds it any more.
  ghost function Split(vm: Vm, p: Page): (r: Option<Vm>)
    requires WellFormed(vm) && p in vm.pages
    ensures r.Some? ==> WellFormed(r.value)
  {
    var shared := vm.pages[p].frame;
    RefWellFormed(vm, shared);
    var v := DecRef(vm, shared);
    if v.alloc.Exhausted() then None
    else
      MapTakenSound(v, p, vm.data[shared]);
      Some(MapTaken(v, p, vm.data[shared]))
  }

  // sys/paging.c, unmap_phyaddr: the frame goes back to the pool with its last count.
  function Unmap(vm: Vm, p: Page): Vm
    requires p in vm.pages ==> vm.base <= vm.pages[p].frame < vm.base + |vm.alloc.refs| <= |vm.data|
  {
    if p !in vm.pages then vm
    else
      var f := vm.pages[p].frame;
      var v := if vm.alloc.refs[f - vm.base] == 1
        then Cleared(vm, f).(alloc := vm.alloc.Give(f - vm.base)) else vm;
      DecRef(v, f).(pages := vm.pages - {p})
  }

  lemma UnmapEffect(vm: Vm, p: Page)
    requires WellFormed(vm) && p in vm.pages && RefCount(vm, vm.pages[p].frame) >= 1
    ensures vm.base + |vm.alloc.refs| <= |vm.data|
    ensures var f := vm.pages[p].frame; var w := Unmap(vm, p);
            && w.tables == vm.tables && w.base == vm.base && |w.data| == |vm.data|
            && w.pages == vm.pages - {p}
            && w.alloc.refs == vm.alloc.refs[f - vm.base := vm.alloc.refs[f - vm.base] - 1]
            && (forall g :: 0 <= g < |vm.data| && g != f ==> w.data[g] == vm.data[g])
            && (vm.alloc.refs[f - vm.base] > 1 ==> w.data == vm.data && w.alloc.free == vm.alloc.free)
            && (vm.alloc.refs[f - vm.base] == 1 ==>
                  && w.alloc.free == [f - vm.base] + vm.alloc.free
                  && w.data[f] == ZeroPrefix(vm.data[f], CLEARED))
  {
    hide TablesOk;
  }

  lemma HeldCount(vm: Vm, p: Page)
    requires WellFormed(vm) && Counted(vm) && p in vm.pages
    ensures vm.base < vm.pages[p].frame < vm.base + |vm.alloc.refs| <= |vm.data|
    ensures RefCount(vm, vm.pages[p].frame) >= 1
  {
    assert p in Holders(vm.pages, vm.pages[p].frame);
    assert |Holders(vm.pages, vm.pages[p].frame)| <= RefCount(vm, vm.pages[p].frame);
  }

  lemma UnmapCounted(vm: Vm, p: Page)
    requires WellFormed(vm) && Counted(vm) && p in vm.pages
    ensures Counted(Unmap(vm, p))
  {
    hide WellFormed, Unmap;
    HeldCount(vm, p);
    UnmapEffect(vm, p);
    var w := Unmap(vm, p);
    forall g {:trigger Holders(w.pages, g)} | w.base <= g < w.base + |w.alloc.refs|
      ensures |Holders(w.pages, g)| <= RefCount(w, g)
    {
      HoldersRemove(vm.pages, p, g);
      assert |Holders(vm.pages, g)| <= RefCount(vm, g);
    }
  }

  // One more free frame, the one that lost its last holder.
  lemma UnmapFree(vm: Vm, p: Page)
    requires WellFormed(vm) && p in vm.pages && RefCount(vm, vm.pages[p].frame) >= 1
    ensures PoolOk(Unmap(vm, p))
    ensures forall g {:trigger FreeFrame(Unmap(vm, p), g)} :: FreeFrame(Unmap(vm, p), g) ==>
              FreeFrame(vm, g) || (g == vm.pages[p].frame && RefCount(vm, g) == 1)
  {
    hide TablesOk;
    var f := vm.pages[p].frame;
    var b := f - vm.base;
    assert b !in vm.alloc.free;
    var a := if vm.alloc.refs[b] == 1 then vm.alloc.Give(b) else vm.alloc;
    assert a.Valid() by { GiveValid(vm.alloc, b); }
    assert Unmap(vm, p).alloc == a.Dec(b);
  }

  lemma UnmapWellFormed(vm: Vm, p: Page)
    requires WellFormed(vm) && Counted(vm) && p in vm.pages && p.space != KERNEL
    ensures WellFormed(Unmap(vm, p))
  {
    HeldCount(vm, p);
    var f := vm.pages[p].frame;
    if RefCount(vm, f) == 1 {
      forall q | q in vm.pages && vm.pages[q].frame == f
        ensures q == p
      {
        SoleHolder(vm, p, q);
      }
    }
    UnmapFree(vm, p);
    UnmapRest(vm, p);
  }

  lemma UnmapRest(vm: Vm, p: Page)
    requires WellFormed(vm) && p in vm.pages && p.space != KERNEL
    requires RefCount(vm, vm.pages[p].frame) >= 1 && PoolOk(Unmap(vm, p))
    requires forall g {:trigger FreeFrame(Unmap(vm, p), g)} :: FreeFrame(Unmap(vm, p), g) ==>
               FreeFrame(vm, g) || (g == vm.pages[p].frame && RefCount(vm, g) == 1)
    requires RefCount(vm, vm.pages[p].frame) == 1 ==>
               forall q {:trigger vm.pages[q]} :: q in vm.pages && vm.pages[q].frame == vm.pages[p].frame ==> q == p
    ensures WellFormed(Unmap(vm, p))
  {
    UnmapEffect(vm, p);
    hide PoolOk, FreeFrame, Unmap;
    var w := Unmap(vm, p);
    assert forall t {:trigger Placed(w, t)} :: Placed(vm, t) ==> Placed(w, t);
  }

  // sys/paging.c, unmap_phyaddr_range: the pages from `a` up to but not including `b`.
  ghost function UnmapPages(vm: Vm, space: nat, a: nat, b: nat): (r: Vm)
    requires WellFormed(vm) && Counted(vm) && space != KERNEL
    ensures WellFormed(r) && Counted(r) && r.tables == vm.tables
    decreases b - a
  {
    if a >= b then vm
    else if Page(space, a) !in vm.pages then UnmapPages(vm, space, a + 1, b)
    else
      UnmapWellFormed(vm, Page(space, a));
      UnmapCounted(vm, Page(space, a));
      UnmapPages(Unmap(vm, Page(space, a)), space, a + 1, b)
  }

  lemma UnmapPagesStep(vm: Vm, space: nat, a: nat, b: nat)
    requires WellFormed(vm) && Counted(vm) && space != KERNEL && a < b
    ensures Page(space, a) !in vm.pages ==>
      UnmapPages(vm, space, a, b) == UnmapPages(vm, space, a + 1, b)
    ensures Page(space, a) in vm.pages ==>
      && vm.base <= vm.pages[Page(space, a)].frame < vm.base + |vm.alloc.refs| <= |vm.data|
      && WellFormed(Unmap(vm, Page(space, a))) && Counted(Unmap(vm, Page(space, a)))
      && UnmapPages(vm, space, a, b) == UnmapPages(Unmap(vm, Page(space, a)), space, a + 1, b)
  {
    if Page(space, a) in vm.pages {
      UnmapWellFormed(vm, Page(space, a));
      UnmapCounted(vm, Page(space, a));
    }
    hide Unmap, Counted, TablesOk, PoolOk;
  }

  lemma UnmapPagesEnd(vm: Vm, space: nat, a: nat, b: nat)
    requires WellFormed(vm) && Counted(vm) && space != KERNEL && a >= b
    ensures UnmapPages(vm, space, a, b) == vm
  {
  }

  // ------------------------------------------------------------------- effects

  // Frames in use stay in use with their counts; free frames may be taken.
  ghost predicate Quiet(vm: Vm, v: Vm) {
    && v.base == vm.base && |v.alloc.refs| == |vm.alloc.refs|
    && (forall g {:trigger FreeFrame(v, g)} :: FreeFrame(v, g) ==> FreeFrame(vm, g))
    && (forall g {:trigger v.alloc.refs[g]} :: 0 <= g < |vm.alloc.refs| ==>
          && v.alloc.refs[g] >= vm.alloc.refs[g]
          && (g !in vm.alloc.free ==> v.alloc.refs[g] == vm.alloc.refs[g]))
  }

  lemma QuietTransitive(vm: Vm, v: Vm, w: Vm)
    requires Quiet(vm, v) && Quiet(v, w)
    ensures Quiet(vm, w)
  {
    forall g {:trigger w.alloc.refs[g]} | 0 <= g < |vm.alloc.refs|
      ensures w.alloc.refs[g] >= vm.alloc.refs[g]
      ensures g !in vm.alloc.free ==> w.alloc.refs[g] == vm.alloc.refs[g]
    {
      assert v.alloc.refs[g] >= vm.alloc.refs[g];
      assert FreeFrame(v, g + v.base) ==> FreeFrame(vm, g + v.base);
    }
  }

  lemma QuietSelf(vm: Vm)
    ensures Quiet(vm, vm)
  {
  }

  lemma QuietSame(vm: Vm, v: Vm, w: Vm)
    requires Quiet(vm, v) && w.alloc == v.alloc && w.base == v.base
    ensures Quiet(vm, w)
  {
    FreeKept(v, w);
  }

  lemma MappableSame(v: Vm, w: Vm, f: nat)
    requires Mappable(v, f) && w.alloc == v.alloc && w.base == v.base && w.tables == v.tables
    ensures Mappable(w, f)
  {
  }

  lemma TakeQuiet(vm: Vm)
    requires WellFormed(vm) && !vm.alloc.Exhausted()
    ensures vm.alloc.Valid() && Quiet(vm, TakeFrame(vm))
  {
    hide TablesOk, PagesOk, Frames.Valid;
    TakenPool(vm);
    TakeRest(vm.alloc);
  }

  lemma EnsureTableQuiet(vm: Vm, t: Table)
    requires WellFormed(vm) && Placed(vm, t)
    ensures EnsureTable(vm, t).Some? ==> Quiet(vm, EnsureTable(vm, t).value)
  {
    hide WellFormed, Frames.Valid, Frames.Take, Quiet;
    QuietSelf(vm);
    if t !in vm.tables && !vm.alloc.Exhausted() {
      TakeQuiet(vm);
      QuietSame(vm, TakeFrame(vm), AddTable(vm, t));
    }
  }

  lemma EnsurePathQuiet(vm: Vm, space: nat, n: nat)
    requires WellFormed(vm) && Reachable(vm, space, n)
    ensures EnsurePath(vm, space, n).Some? ==> Quiet(vm, EnsurePath(vm, space, n).value)
  {
    hide WellFormed, FreeFrame, Placed, Pdpt, Pd, Pt, EnsureTable, Reachable, Grown, Quiet;
    PathPlaced(vm, space, n);
    EnsureTableQuiet(vm, Pdpt(space, n));
    var v3 := EnsureTable(vm, Pdpt(space, n));
    if v3.Some? {
      PathPlaced(v3.value, space, n);
      EnsureTableQuiet(v3.value, Pd(space, n));
      var v2 := EnsureTable(v3.value, Pd(space, n));
      if v2.Some? {
        PathPlaced(v2.value, space, n);
        EnsureTableQuiet(v2.value, Pt(space, n));
        var v1 := EnsureTable(v2.value, Pt(space, n));
        QuietTransitive(vm, v3.value, v2.value);
        if v1.Some? {
          QuietTransitive(vm, v2.value, v1.value);
        }
      }
    }
  }

  lemma QuietCounted(vm: Vm, v: Vm)
    requires Quiet(vm, v) && v.pages == vm.pages && Counted(vm)
    ensures Counted(v)
  {
    forall f {:trigger Holders(v.pages, f)} | v.base <= f < v.base + |v.alloc.refs|
      ensures |Holders(v.pages, f)| <= RefCount(v, f)
    {
      assert |Holders(vm.pages, f)| <= RefCount(vm, f);
      assert v.alloc.refs[f - v.base] >= vm.alloc.refs[f - vm.base];
    }
  }

  // What a page operation did: tables may have been added, page `p` holds `e`, and only
  // the bytes of frame e.frame may differ.
  ghost predicate Mapped(vm: Vm, v: Vm, p: Page, e: Pte) {
    && v.base == vm.base && |v.data| == |vm.data| && v.pages == vm.pages[p := e]
    && Quiet(vm, v)
    && (forall t {:trigger t in v.tables} {:trigger v.tables[t]} ::
          t in vm.tables ==> t in v.tables && v.tables[t] == vm.tables[t])
    && (forall g :: 0 <= g < |vm.data| && g != e.frame ==> v.data[g] == vm.data[g])
  }

  lemma TakenMappable(vm: Vm)
    requires WellFormed(vm) && !vm.alloc.Exhausted()
    ensures vm.alloc.Valid() && vm.base < NextFrame(vm) < vm.base + |vm.alloc.refs| <= |vm.data|
    ensures TakeFrame(vm) == vm.(alloc := TakeFrame(vm).alloc) && |TakeFrame(vm).alloc.refs| == |vm.alloc.refs|
    ensures FreeFrame(vm, NextFrame(vm)) && Mappable(TakeFrame(vm), NextFrame(vm))
    ensures RefCount(TakeFrame(vm), NextFrame(vm)) == 1
  {
    hide TablesOk, PagesOk, Frames.Take;
    Taken(vm);
    TakenPool(vm);
  }

  lemma WasFree(vm: Vm, v: Vm, f: nat)
    requires Quiet(vm, v) && FreeFrame(v, f)
    ensures FreeFrame(vm, f)
  {
  }

  // MapPage on a page that is not there: a frame nobody has, start cleared, counted once.
  lemma MapPageEffect(vm: Vm, space: nat, n: nat)
    requires WellFormed(vm) && Reachable(vm, space, n) && PageIn(space, n) !in vm.pages
    ensures MapPage(vm, space, n).Some? ==>
      var v := MapPage(vm, space, n).value; var p := PageIn(space, n);
      && p in v.pages && v.pages[p].writable && Mapped(vm, v, p, v.pages[p])
      && FreeFrame(vm, v.pages[p].frame) && vm.base < v.pages[p].frame < vm.base + |vm.alloc.refs|
      && v.pages[p].frame < |vm.data|
      && v.data[v.pages[p].frame] == ZeroPrefix(vm.data[v.pages[p].frame], CLEARED)
      && RefCount(v, v.pages[p].frame) == 1
      && Mappable(v, v.pages[p].frame)
  {
    hide WellFormed, EnsurePath, ZeroPrefix, Reachable, Quiet, FreeFrame, Frames.Valid, Frames.Take, Mappable;
    EnsurePathQuiet(vm, space, n);
    var r := EnsurePath(vm, space, n);
    if r.Some? && !r.value.alloc.Exhausted() {
      TakenMappable(r.value);
      var v, f := r.value, NextFrame(r.value);
      TakeQuiet(v);
      QuietTransitive(vm, v, TakeFrame(v));
      var w := MapPage(vm, space, n).value;
      assert w == MapTaken(v, PageIn(space, n), ZeroPrefix(v.data[f], CLEARED));
      QuietSame(vm, TakeFrame(v), w);
      MappableSame(TakeFrame(v).(tables := v.tables), w, f);
      WasFree(vm, v, f);
    }
  }

  lemma MapCowEffect(vm: Vm, space: nat, n: nat, f: nat)
    requires WellFormed(vm) && Reachable(vm, space, n) && Mappable(vm, f)
    ensures MapCow(vm, space, n, f).Some? ==>
      var v := MapCow(vm, space, n, f).value;
      && Mapped(vm, v, PageIn(space, n), Pte(f, false)) && v.data == vm.data && Mappable(v, f)
  {
    hide WellFormed, EnsurePath, Mappable, Reachable, Quiet;
    EnsurePathQuiet(vm, space, n);
    PathKeepsMappable(vm, space, n, f);
    var r := EnsurePath(vm, space, n);
    if r.Some? {
      QuietSame(vm, r.value, MapCow(vm, space, n, f).value);
      MappableSame(r.value, MapCow(vm, space, n, f).value, f);
    }
  }

  // Split: another frame, the same bytes, one count moved.
  lemma SplitEffect(vm: Vm, p: Page)
    requires WellFormed(vm) && p in vm.pages
    ensures vm.base < vm.pages[p].frame < vm.base + |vm.alloc.refs| <= |vm.data|
    ensures Split(vm, p).Some? ==>
      var v := Split(vm, p).value; var shared := vm.pages[p].frame;
      && p in v.pages
      && var f := v.pages[p].frame;
      && vm.base < f < vm.base + |vm.alloc.refs| && FreeFrame(vm, f) && Mappable(v, f)
      && v == vm.(alloc := v.alloc, pages := vm.pages[p := Pte(f, true)], data := vm.data[f := vm.data[shared]])
      && |v.alloc.refs| == |vm.alloc.refs|
      && RefCount(v, f) == 1
      && RefCount(v, shared) == (if RefCount(vm, shared) < 1 then RefCount(vm, shared) else RefCount(vm, shared) - 1)
      && f != shared
      && (forall g {:trigger RefCount(v, g)} ::
            vm.base <= g < vm.base + |vm.alloc.refs| && g != f && g != shared ==> RefCount(v, g) == RefCount(vm, g))
      && vm.alloc.free == [f - vm.base] + v.alloc.free
  {
    hide TablesOk, PagesOk, Frames.Valid, Mappable;
    var shared := vm.pages[p].frame;
    PageFrame(vm, p);
    RefWellFormed(vm, shared);
    var d := DecRef(vm, shared);
    if !d.alloc.Exhausted() {
      TakenMappable(d);
      TakeRest(d.alloc);
      MappableSame(TakeFrame(d), Split(vm, p).value, NextFrame(d));
    }
  }

  lemma PageFrame(vm: Vm, p: Page)
    requires WellFormed(vm) && p in vm.pages
    ensures vm.base < vm.pages[p].frame < vm.base + |vm.alloc.refs| <= |vm.data|
    ensures !FreeFrame(vm, vm.pages[p].frame) && vm.alloc.Valid()
  {
  }

  lemma SplitCounted(vm: Vm, p: Page)
    requires WellFormed(vm) && Counted(vm) && p in vm.pages
    ensures Split(vm, p).Some? ==> Counted(Split(vm, p).value)
  {
    hide WellFormed, Split, FreeFrame, Mappable;
    SplitEffect(vm, p);
    HeldCount(vm, p);
    if Split(vm, p).Some? {
      var v := Split(vm, p).value;
      forall g {:trigger Holders(v.pages, g)} | v.base <= g < v.base + |v.alloc.refs|
        ensures |Holders(v.pages, g)| <= RefCount(v, g)
      {
        HoldersReplace(vm.pages, p, v.pages[p], g);
        assert |Holders(vm.pages, g)| <= RefCount(vm, g);
        if g == v.pages[p].frame && g != vm.pages[p].frame {
          NotHeld(vm, g);
        }
      }
    }
  }

  lemma NotHeld(vm: Vm, f: nat)
    requires WellFormed(vm) && FreeFrame(vm, f)
    ensures Holders(vm.pages, f) == {}
  {
  }

  lemma MapPageTables(vm: Vm, space: nat, n: nat)
    requires WellFormed(vm) && Reachable(vm, space, n)
    ensures MapPage(vm, space, n).Some? ==>
      EnsurePath(vm, space, n).Some? && MapPage(vm, space, n).value.tables == EnsurePath(vm, space, n).value.tables
  {
    hide EnsurePath, TablesOk, PagesOk, Reachable, Frames.Valid;
    var r := EnsurePath(vm, space, n);
    if r.Some? && !r.value.alloc.Exhausted() {
      TakenMappable(r.value);
    }
  }

  // ------------------------------------------------------------- enough memory

  // How many tables are missing on the way to page `n`: below a missing table there are none.
  function Missing(vm: Vm, space: nat, n: nat): nat {
    if Pt(space, n) in vm.tables then 0
    else if Pd(space, n) in vm.tables then 1
    else if Pdpt(space, n) in vm.tables then 2
    else 3
  }

  lemma EnsureTableIff(vm: Vm, t: Table)
    requires WellFormed(vm) && Placed(vm, t)
    ensures EnsureTable(vm, t).Some? <==> t in vm.tables || |vm.alloc.free| >= 6
    ensures EnsureTable(vm, t).Some? ==>
      var v := EnsureTable(vm, t).value;
      && |v.alloc.free| == |vm.alloc.free| - (if t in vm.tables then 0 else 1)
      && (forall u {:trigger u in v.tables} :: u in v.tables <==> u == t || u in vm.tables)
  {
    hide TablesOk, PagesOk;
  }

  lemma MissingBelow(vm: Vm, space: nat, n: nat)
    requires WellFormed(vm) && Reachable(vm, space, n)
    ensures Pt(space, n) in vm.tables ==> Pd(space, n) in vm.tables
    ensures Pd(space, n) in vm.tables ==> Pdpt(space, n) in vm.tables
    ensures Pt(space, n) != Pd(space, n) && Pt(space, n) != Pdpt(space, n) && Pd(space, n) != Pdpt(space, n)
  {
    assert Pt(space, n) in vm.tables ==> Placed(vm, Pt(space, n));
    assert Pd(space, n) in vm.tables ==> Placed(vm, Pd(space, n));
  }

  // The path can be made exactly when each missing table finds six frames free in its turn.
  lemma PathIff(vm: Vm, space: nat, n: nat)
    requires WellFormed(vm) && Reachable(vm, space, n)
    ensures EnsurePath(vm, space, n).Some? <==> Missing(vm, space, n) == 0 || |vm.alloc.free| >= 5 + Missing(vm, space, n)
    ensures EnsurePath(vm, space, n).Some? ==>
      |EnsurePath(vm, space, n).value.alloc.free| == |vm.alloc.free| - Missing(vm, space, n)
  {
    hide WellFormed, Reachable, Placed, EnsureTable, Grown, Pt, Pd, Pdpt;
    MissingBelow(vm, space, n);
    PathPlaced(vm, space, n);
    EnsureTableIff(vm, Pdpt(space, n));
    var r3 := EnsureTable(vm, Pdpt(space, n));
    if r3.Some? {
      PathPlaced(r3.value, space, n);
      EnsureTableIff(r3.value, Pd(space, n));
      var r2 := EnsureTable(r3.value, Pd(space, n));
      if r2.Some? {
        PathPlaced(r2.value, space, n);
        EnsureTableIff(r2.value, Pt(space, n));
      }
    }
  }

  lemma MapPageIff(vm: Vm, space: nat, n: nat)
    requires WellFormed(vm) && Reachable(vm, space, n)
    ensures PageIn(space, n) in vm.pages ==> Missing(vm, space, n) == 0 && MapPage(vm, space, n).Some?
    ensures PageIn(space, n) !in vm.pages ==>
      (MapPage(vm, space, n).Some? <==> |vm.alloc.free| >= 6 + Missing(vm, space, n))
    ensures MapPage(vm, space, n).Some? ==>
      |MapPage(vm, space, n).value.alloc.free|
        == |vm.alloc.free| - Missing(vm, space, n) - (if PageIn(space, n) in vm.pages then 0 else 1)
  {
    hide TablesOk, Reachable, EnsurePath, Missing;
    PathPlaced(vm, space, n);
    PathIff(vm, space, n);
    if PageIn(space, n) in vm.pages {
      NothingMissing(vm, space, n);
    }
  }

  lemma MapCowIff(vm: Vm, space: nat, n: nat, f: nat)
    requires WellFormed(vm) && Reachable(vm, space, n) && Mappable(vm, f)
    ensures MapCow(vm, space, n, f).Some? <==> Missing(vm, space, n) == 0 || |vm.alloc.free| >= 5 + Missing(vm, space, n)
    ensures MapCow(vm, space, n, f).Some? ==>
      |MapCow(vm, space, n, f).value.alloc.free| == |vm.alloc.free| - Missing(vm, space, n)
  {
    hide WellFormed, Reachable, Mappable, EnsurePath, Missing;
    PathIff(vm, space, n);
  }

  lemma NothingMissing(vm: Vm, space: nat, n: nat)
    requires WellFormed(vm) && Reachable(vm, space, n) && PageIn(space, n) in vm.pages
    ensures Missing(vm, space, n) == 0
  {
    PathPlaced(vm, space, n);
  }

  lemma SplitIff(vm: Vm, p: Page)
    requires WellFormed(vm) && p in vm.pages
    ensures Split(vm, p).Some? <==> |vm.alloc.free| >= 6
  {
    PageFrame(vm, p);
    hide WellFormed;
  }

  // MapPage on a page that is there: its start is cleared.
  lemma MapPagePresent(vm: Vm, space: nat, n: nat)
    requires WellFormed(vm) && Reachable(vm, space, n) && PageIn(space, n) in vm.pages
    requires Mappable(vm, vm.pages[PageIn(space, n)].frame)
    ensures MapPage(vm, space, n).Some? ==>
      var v := MapPage(vm, space, n).value; var e := vm.pages[PageIn(space, n)];
      && v.pages == vm.pages && Mapped(vm, v, PageIn(space, n), e) && Mappable(v, e.frame)
      && e.frame < |vm.data| && v.data[e.frame] == ZeroPrefix(vm.data[e.frame], CLEARED)
  {
    hide WellFormed, EnsurePath, Mappable, Reachable, Quiet, FreeFrame, ZeroPrefix;
    EnsurePathQuiet(vm, space, n);
    PathKeepsMappable(vm, space, n, vm.pages[PageIn(space, n)].frame);
    var r := EnsurePath(vm, space, n);
    if r.Some? {
      PageFrame(r.value, PageIn(space, n));
      QuietSame(vm, r.value, MapPage(vm, space, n).value);
      MappableSame(r.value, MapPage(vm, space, n).value, vm.pages[PageIn(space, n)].frame);
    }
  }
}
