/**
  sys/paging.c and the page-table half of sys/task_manager.c, run against physical
  memory.  Every access to a table goes through the hardware walk, at an address
  computed for entry 510; the ghost field `vm` is the abstract virtual memory that the
  bytes of memory show.
 */
module Paging {
  import opened Addressing
  import opened Coupling
  import opened FrameAllocator
  import opened Hardware
  import opened Integers
  import opened Memory
  import opened Spaces
  import opened VirtualMemory
  import opened Wrappers

  function IndexAt(n: nat, level: nat): (i: nat)
    requires n / 512 / 512 / 512 < 512
    ensures i < 512
  {
    if level == 1 then n % 512
    else if level == 2 then n / 512 % 512
    else if level == 3 then n / 512 / 512 % 512
    else n / 512 / 512 / 512
  }

  lemma NextTable(ram: Ram, vm: Vm, space: nat, n: nat, level: nat)
    requires Coupled(ram, vm) && Reachable(vm, space, n) && 2 <= level <= 4
    requires TableAt(space, n, level) in vm.tables
    ensures TableAt(space, n, level).level == level && IndexAt(n, level) < 512
    ensures level == 4 ==> IndexAt(n, level) != SELF_SLOT
    ensures Child(TableAt(space, n, level), IndexAt(n, level)) == TableAt(space, n, level - 1)
    ensures Placed(vm, TableAt(space, n, level - 1))
  {
    PathPlaced(vm, space, n);
  }

  lemma PathStep(vm: Vm, v: Vm, raw: set<Table>, space: nat, n: nat, level: nat)
    requires Reachable(vm, space, n) && PathShown(vm, {}, space, n, level) && 2 <= level <= 4
    requires Grown(vm, v) && TableAt(space, n, level - 1) in v.tables
    requires raw <= {TableAt(space, n, level - 1)}
    ensures Reachable(v, space, n) && PathShown(v, raw, space, n, level - 1)
  {
  }

  // The indices the source computes are the positions in the tables on the way.
  lemma IndicesOfPage(va: nat)
    ensures var n := PageOf(va);
            && n / 512 / 512 / 512 < 512
            && IndexAt(n, 4) == P1Index(va) && IndexAt(n, 3) == P2Index(va)
            && IndexAt(n, 2) == P3Index(va) && IndexAt(n, 1) == P4Index(va)
  {
    IndexChains(va);
    PageFields(va);
    hide P1Index, P2Index, P3Index, P4Index, HwPml4, HwPdpt, HwPd, HwPt, PageOf;
    FieldPrefixes(HwPml4(va), HwPdpt(va), HwPd(va), HwPt(va));
  }

  // `base` is rebuilt from whatever it was before: only its leading ones are used.
  lemma Rebased(base: nat, a: nat, b: nat, c: nat, d: nat)
    requires HighOnes(base) && a < 512 && b < 512 && c < 512 && d < 512
    ensures Chain(base, a, b, c, d) == Chain(BASE, a, b, c, d) && HighOnes(Chain(base, a, b, c, d))
  {
    hide Chain, HighOnes;
    assert HighOnes(BASE) by { BaseHighOnes(); }
    ChainValue(base, a, b, c, d);
    ChainValue(BASE, a, b, c, d);
  }

  lemma BaseHighOnes()
    ensures HighOnes(BASE)
  {
  }

  lemma AddressesOnPath(n: nat)
    requires n / 512 / 512 / 512 < 512
    ensures TableAddress(n, 4) == Chain(BASE, SELF_SLOT, SELF_SLOT, SELF_SLOT, SELF_SLOT)
    ensures TableAddress(n, 3) == Chain(BASE, SELF_SLOT, SELF_SLOT, SELF_SLOT, IndexAt(n, 4))
    ensures TableAddress(n, 2) == Chain(BASE, SELF_SLOT, SELF_SLOT, IndexAt(n, 4), IndexAt(n, 3))
    ensures TableAddress(n, 1) == Chain(BASE, SELF_SLOT, IndexAt(n, 4), IndexAt(n, 3), IndexAt(n, 2))
  {
  }

  lemma StartOfPath(vm: Vm, space: nat, n: nat)
    requires Top(space) in vm.tables
    ensures PathShown(vm, {}, space, n, 4)
  {
  }

  // EnsurePath, one table after the other.
  lemma EnsurePathIs(ram: Ram, vm: Vm, space: nat, n: nat)
    requires Coupled(ram, vm) && Reachable(vm, space, n)
    ensures Placed(vm, TableAt(space, n, 3))
    ensures var r3 := EnsureTable(vm, TableAt(space, n, 3));
            && (r3.None? ==> EnsurePath(vm, space, n) == None)
            && (r3.Some? ==>
                  && WellFormed(r3.value) && Placed(r3.value, TableAt(space, n, 2))
                  && var r2 := EnsureTable(r3.value, TableAt(space, n, 2));
                  && (r2.None? ==> EnsurePath(vm, space, n) == None)
                  && (r2.Some? ==>
                        && WellFormed(r2.value) && Placed(r2.value, TableAt(space, n, 1))
                        && EnsurePath(vm, space, n) == EnsureTable(r2.value, TableAt(space, n, 1))))
  {
    hide PoolOk, PagesOk, TablesCoupled, DataCoupled, EnsureTable;
    PathPlaced(vm, space, n);
    var r3 := EnsureTable(vm, Pdpt(space, n));
    if r3.Some? {
      PathPlaced(r3.value, space, n);
      var r2 := EnsureTable(r3.value, Pd(space, n));
      if r2.Some? {
        PathPlaced(r2.value, space, n);
      }
    }
  }

  // What EnsureTable comes to, and that it only adds.
  lemma EnsureIs(ram: Ram, vm: Vm, u: Table)
    requires Coupled(ram, vm) && Placed(vm, u)
    ensures WellFormed(vm) && vm.alloc.Valid() && Grown(vm, vm)
    ensures u in vm.tables ==> EnsureTable(vm, u) == Some(vm)
    ensures u !in vm.tables && vm.alloc.Exhausted() ==> EnsureTable(vm, u) == None
    ensures u !in vm.tables && !vm.alloc.Exhausted() ==>
      && EnsureTable(vm, u) == Some(AddTable(vm, u)) && Grown(vm, AddTable(vm, u)) && u in AddTable(vm, u).tables
  {
  }

  // The words of a writable and of a read-only entry, put together from address and flags.
  lemma EntryWords(f: nat)
    ensures BitOr(f * 4096 / 4096 * 4096, 7) == f * 4096 + 7
    ensures BitOr(f * 4096, 5) == f * 4096 + 5
  {
    hide BitOr;
    BitOrLow9(8 * f, 7);
    BitOrLow9(8 * f, 5);
    assert f * 4096 / 4096 * 4096 == 512 * (8 * f);
  }

  // ------------------------------------------------------------- page entries

  lemma PageEntryIs(ram: Ram, vm: Vm, space: nat, n: nat)
    requires Coupled(ram, vm) && Pt(space, n) in vm.tables
    ensures vm.tables[Pt(space, n)] < |ram|
    ensures WordAt(ram[vm.tables[Pt(space, n)]], n % 512)
         == if PageIn(space, n) in vm.pages then PageWord(vm.pages[PageIn(space, n)]) else 0
  {
    hide PoolOk, PagesOk;
    var t := Pt(space, n);
    assert Placed(vm, t);
    assert WordAt(ram[vm.tables[t]], n % 512) == Expected(vm, t, n % 512);
    assert t.prefix * 512 + n % 512 == n;
  }

  // The walk for any address outside the self entry.
  lemma TranslateIs(ram: Ram, vm: Vm, space: nat, va: nat)
    requires Coupled(ram, vm) && Top(space) in vm.tables && Canonical(va) && HwPml4(va) != SELF_SLOT
    ensures vm.tables[Top(space)] < |ram|
    ensures Translate(ram, vm.tables[Top(space)], va) == AsHit(Entry(vm, PageIn(space, PageOf(va))))
  {
    hide Coupled, Walk, Entry, AsHit, Canonical, HwPml4, HwPdpt, HwPd, HwPt, PageOf;
    PageFields(va);
    WalkIsLookup(ram, vm, space, HwPml4(va), HwPdpt(va), HwPd(va), HwPt(va));
  }

  lemma SamePage(va: nat, i: nat)
    requires va % 4096 == 0 && i < 4096
    ensures PageOf(va + i) == PageOf(va) && HwPml4(va + i) == HwPml4(va)
    ensures Canonical(va + i) <==> Canonical(va)
    ensures OffsetOf(va + i) == i
  {
    ShiftsNest(va);
    ShiftsNest(va + i);
    assert (va + i) / 0x1000 == va / 0x1000;
  }

  // The kernel may write the page at `va`: it is mapped, and not to a table.
  ghost predicate Writable(vm: Vm, space: nat, va: nat) {
    && Canonical(va) && HwPml4(va) != SELF_SLOT
    && PageIn(space, PageOf(va)) in vm.pages
    && !IsTable(vm, vm.pages[PageIn(space, PageOf(va))].frame)
  }

  lemma ClearedSoFar(ram: Ram, vm: Vm, space: nat, va: nat, f: nat, i: nat)
    requires Coupled(ram, vm) && Top(space) in vm.tables && va % 4096 == 0 && i < 512
    requires Writable(vm, space, va) && f == vm.pages[PageIn(space, PageOf(va))].frame
    requires f < |ram| && f < |vm.data|
    ensures var k := if i == 0 then 0 else i + 7; var fr := ZeroPrefix(vm.data[f], k);
            && Coupled(ram[f := fr], SetData(vm, f, fr))
            && vm.tables[Top(space)] < |ram|
            && Translate(ram[f := fr], vm.tables[Top(space)], va + i).Some?
            && Translate(ram[f := fr], vm.tables[Top(space)], va + i).value.frame == f
            && OffsetOf(va + i) == i
            && Store(fr, i, 8, 0) == ZeroPrefix(vm.data[f], i + 8)
  {
    hide Coupled, Canonical, PageOf, HwPml4, OffsetOf, Translate, Store, ZeroPrefix, IsTable;
    var k := if i == 0 then 0 else i + 7;
    var fr := ZeroPrefix(vm.data[f], k);
    SetDataCoupled(ram, vm, f, fr);
    SamePage(va, i);
    TranslateIs(ram[f := fr], SetData(vm, f, fr), space, va + i);
    ZeroStoreStep(vm.data[f], i);
  }

  // What writing the entry of page `n` does: with a frame just taken, or with a frame
  // already in use.
  lemma MapTakenCoupled(ram: Ram, vm: Vm, space: nat, n: nat)
    requires Coupled(ram, vm) && Pt(space, n) in vm.tables
    ensures vm.tables[Pt(space, n)] < |ram| && vm.alloc.Valid()
    ensures !vm.alloc.Exhausted() ==>
      var e := Pte(NextFrame(vm), true); var v := SetPage(TakeFrame(vm), PageIn(space, n), e);
      && Coupled(Poke(ram, vm.tables[Pt(space, n)], n % 512, PageWord(e)), v)
      && !IsTable(v, NextFrame(vm)) && NextFrame(vm) < |vm.data|
      && v == vm.(alloc := vm.alloc.Take(), pages := vm.pages[PageIn(space, n) := e])
  {
    hide Coupled, WellFormed, Frames.Valid, Frames.Exhausted, Frames.Take, Poke, PageWord, Pt, PtOf, IsTable, Mappable;
    CoupledValid(ram, vm);
    assert PtOf(PageIn(space, n)) == Pt(space, n) by { EntryTable(space, n); }
    if vm.alloc.Exhausted() {
      CoupledInRam(ram, vm, Pt(space, n));
    } else {
      TakenCoupled(ram, vm);
      SetPageCoupled(ram, TakeFrame(vm), PageIn(space, n), Pte(NextFrame(vm), true));
      NotTable(SetPage(TakeFrame(vm), PageIn(space, n), Pte(NextFrame(vm), true)), NextFrame(vm));
    }
  }

  lemma EntryTable(space: nat, n: nat)
    ensures PtOf(PageIn(space, n)) == Pt(space, n) && PageIn(space, n).number == n
  {
  }

  lemma CoupledValid(ram: Ram, vm: Vm)
    requires Coupled(ram, vm)
    ensures WellFormed(vm) && vm.alloc.Valid() && |ram| == |vm.data|
  {
  }

  lemma NotTable(vm: Vm, f: nat)
    requires Mappable(vm, f)
    ensures !IsTable(vm, f)
  {
  }

  lemma TakenCoupled(ram: Ram, vm: Vm)
    requires Coupled(ram, vm) && !vm.alloc.Exhausted()
    ensures vm.alloc.Valid() && Coupled(ram, TakeFrame(vm))
    ensures NextFrame(vm) < |vm.data| && Mappable(TakeFrame(vm), NextFrame(vm))
    ensures forall e {:trigger SetPage(TakeFrame(vm), e, Pte(NextFrame(vm), true))} ::
              Mappable(SetPage(TakeFrame(vm), e, Pte(NextFrame(vm), true)), NextFrame(vm))
    ensures TakeFrame(vm) == vm.(alloc := vm.alloc.Take())
  {
    hide TablesCoupled, DataCoupled;
    Taken(vm);
    AllocCoupled(ram, vm, TakeFrame(vm));
  }

  lemma MapSharedCoupled(ram: Ram, vm: Vm, space: nat, n: nat, e: Pte)
    requires Coupled(ram, vm) && Pt(space, n) in vm.tables && Mappable(vm, e.frame)
    ensures vm.tables[Pt(space, n)] < |ram|
    ensures Coupled(Poke(ram, vm.tables[Pt(space, n)], n % 512, PageWord(e)), SetPage(vm, PageIn(space, n), e))
  {
    assert PtOf(PageIn(space, n)) == Pt(space, n);
    hide Coupled, Mappable, Pt;
    SetPageCoupled(ram, vm, PageIn(space, n), e);
  }

  lemma SlotNotSelf(vm: Vm, space: nat, va: nat)
    requires Reachable(vm, space, PageOf(va))
    ensures HwPml4(va) != SELF_SLOT
  {
    PageFields(va);
  }

  // New tables take free frames: a page stays writable.
  lemma WritableKept(ram: Ram, vm: Vm, space: nat, va: nat)
    requires Coupled(ram, vm) && Reachable(vm, space, PageOf(va)) && Writable(vm, space, va)
    ensures EnsurePath(vm, space, PageOf(va)).Some? ==> Writable(EnsurePath(vm, space, PageOf(va)).value, space, va)
  {
    hide TablesCoupled, DataCoupled, PoolOk, Reachable, EnsurePath, Canonical, PageOf, HwPml4;
    var f := vm.pages[PageIn(space, PageOf(va))].frame;
    assert Mappable(vm, f);
    PathKeepsMappable(vm, space, PageOf(va), f);
  }

  // MapPage, once the tables are there.
  lemma MapPageIs(ram: Ram, vm: Vm, space: nat, n: nat)
    requires Coupled(ram, vm) && Reachable(vm, space, n)
    ensures EnsurePath(vm, space, n) == None ==> MapPage(vm, space, n) == None
    ensures EnsurePath(vm, space, n).Some? ==>
      var v := EnsurePath(vm, space, n).value; var p := PageIn(space, n);
      && v.alloc.Valid() && v.pages == vm.pages
      && (p in v.pages ==>
            && v.pages[p].frame < |v.data|
            && MapPage(vm, space, n) == Some(VirtualMemory.Cleared(v, v.pages[p].frame)))
      && (p !in v.pages && v.alloc.Exhausted() ==> MapPage(vm, space, n) == None)
      && (p !in v.pages && !v.alloc.Exhausted() ==>
            && NextFrame(v) < |v.data|
            && MapPage(vm, space, n) == Some(VirtualMemory.Cleared(
                 SetPage(TakeFrame(v), p, Pte(NextFrame(v), true)), NextFrame(v))))
  {
    hide EnsurePath, TablesCoupled, DataCoupled;
    var r := EnsurePath(vm, space, n);
    if r.Some? && !r.value.alloc.Exhausted() {
      Taken(r.value);
    }
  }

  lemma MapCowIs(ram: Ram, vm: Vm, space: nat, n: nat, f: nat)
    requires Coupled(ram, vm) && Reachable(vm, space, n) && Mappable(vm, f)
    ensures EnsurePath(vm, space, n) == None ==> MapCow(vm, space, n, f) == None
    ensures EnsurePath(vm, space, n).Some? ==>
      var v := EnsurePath(vm, space, n).value;
      && Mappable(v, f)
      && MapCow(vm, space, n, f) == Some(SetPage(v, PageIn(space, n), Pte(f, false)))
  {
    hide TablesCoupled, DataCoupled, EnsurePath, Mappable;
    PathKeepsMappable(vm, space, n, f);
  }

  lemma PageFrameInRam(ram: Ram, vm: Vm, p: Page)
    requires Coupled(ram, vm) && p in vm.pages
    ensures vm.pages[p].frame < |ram| == |vm.data|
  {
  }

  lemma DataAt(ram: Ram, vm: Vm, f: nat)
    requires Coupled(ram, vm) && f < |ram| && !IsTable(vm, f)
    ensures f < |vm.data| && ram[f] == vm.data[f]
    ensures ZeroPrefix(vm.data[f], 0) == vm.data[f]
    ensures SetData(vm, f, vm.data[f]) == vm && ram[f := vm.data[f]] == ram
  {
  }

  // ------------------------------------------------------ finding without making

  // The tables on the way to page `n`, as far as they exist.
  lemma NoPathNoPage(ram: Ram, vm: Vm, space: nat, n: nat, level: nat)
    requires Coupled(ram, vm) && Reachable(vm, space, n) && 1 <= level <= 3
    requires TableAt(space, n, level) !in vm.tables
    ensures Pt(space, n) !in vm.tables && PageIn(space, n) !in vm.pages
  {
    PathPlaced(vm, space, n);
    assert Pt(space, n) in vm.tables ==> Placed(vm, Pt(space, n));
    assert Pd(space, n) in vm.tables ==> Placed(vm, Pd(space, n));
  }

  lemma PathDown(vm: Vm, space: nat, n: nat, level: nat)
    requires PathShown(vm, {}, space, n, level) && 2 <= level <= 4
    requires TableAt(space, n, level - 1) in vm.tables
    ensures PathShown(vm, {}, space, n, level - 1)
  {
  }

  lemma PathSame(vm: Vm, v: Vm, space: nat, n: nat)
    requires v.tables == vm.tables
    ensures Reachable(v, space, n) <==> Reachable(vm, space, n)
    ensures PathShown(v, {}, space, n, 1) <==> PathShown(vm, {}, space, n, 1)
  {
    assert forall l {:trigger TableAt(space, n, l)} :: TableAt(space, n, l) in v.tables <==> TableAt(space, n, l) in vm.tables;
  }

  lemma PresentPath(ram: Ram, vm: Vm, space: nat, n: nat)
    requires Coupled(ram, vm) && Reachable(vm, space, n) && PageIn(space, n) in vm.pages
    requires Top(space) in vm.tables
    ensures PathShown(vm, {}, space, n, 1)
  {
    PathPlaced(vm, space, n);
    assert Placed(vm, Pt(space, n)) && Placed(vm, Pd(space, n));
  }

  // The three tests of an entry word.
  lemma PageWordBits(e: Pte)
    ensures PageWord(e) != 0 && PageWord(e) % 2 == 1 && PageWord(e) / 4096 == e.frame
    ensures PageWord(e) % 8 == 5 <==> !e.writable
  {
  }

  // ---------------------------------------------------------------- unmapping

  lemma RemoveWellFormed(vm: Vm, p: Page)
    requires WellFormed(vm)
    ensures WellFormed(vm.(pages := vm.pages - {p}))
  {
    hide FreeFrame, Frames.Valid;
    var v := vm.(pages := vm.pages - {p});
    assert forall t {:trigger Placed(v, t)} :: Placed(vm, t) ==> Placed(v, t);
    assert forall g {:trigger FreeFrame(v, g)} :: FreeFrame(v, g) <==> FreeFrame(vm, g) by { FreeKept(vm, v); }
  }

  // The allocator's share of unmapping a page.
  function Released(a: Frames, b: int): Frames
    requires 0 <= b < |a.refs|
  {
    (if a.refs[b] == 1 then a.Give(b) else a).Dec(b)
  }

  // Unmapping in three moves: clear the page, write the entry, release the frame.
  lemma UnmapParts(vm: Vm, p: Page)
    requires WellFormed(vm) && Counted(vm) && p in vm.pages && p.space != KERNEL
    ensures var f := vm.pages[p].frame;
      && vm.base < f < vm.base + |vm.alloc.refs| <= |vm.data|
      && !IsTable(vm, f) && f - vm.base !in vm.alloc.free
      && WellFormed(Unmap(vm, p))
      && var v := if RefCount(vm, f) == 1 then Cleared(vm, f) else vm;
         Unmap(vm, p) == v.(pages := vm.pages - {p}, alloc := Released(vm.alloc, f - vm.base))
  {
    UnmapWellFormed(vm, p);
  }

  lemma UnmapCoupled(ram: Ram, vm: Vm, v: Vm, p: Page)
    requires Coupled(ram, vm) && PtOf(p) in vm.tables
    requires v == vm.(pages := vm.pages - {p}, alloc := v.alloc) && WellFormed(v)
    ensures vm.tables[PtOf(p)] < |ram|
    ensures Coupled(Poke(ram, vm.tables[PtOf(p)], p.number % 512, 0), v)
  {
    hide TablesCoupled, DataCoupled, Poke, PtOf;
    RemoveWellFormed(vm, p);
    ClearPageCoupled(ram, vm, p);
    AllocCoupled(Poke(ram, vm.tables[PtOf(p)], p.number % 512, 0), vm.(pages := vm.pages - {p}), v);
  }

  lemma PresentBit(vm: Vm, p: Page)
    ensures (if p in vm.pages then PageWord(vm.pages[p]) else 0) % 2 == if p in vm.pages then 1 else 0
  {
  }

  lemma BlockOfEntry(e: Pte, base: nat)
    requires e.frame >= base
    ensures BlockIndex(PageWord(e), 4096 * base) == e.frame - base
  {
    BlockOfAddress(4096 * base, e.frame - base, PageWord(e) - 4096 * e.frame);
  }

  // An address of its own reaches a page of the space.
  lemma PrivateAddress(ram: Ram, vm: Vm, space: nat, va: nat)
    requires Coupled(ram, vm) && Top(space) in vm.tables && Private(va)
    ensures InUse(vm, space) && Canonical(va) && HwPml4(va) != SELF_SLOT
    ensures Reachable(vm, space, PageOf(va)) && PageIn(space, PageOf(va)) == UserPage(space, va)
  {
    hide TablesCoupled, DataCoupled, PoolOk, PagesOk, PageOf, HwPml4, Canonical, Private;
    assert Placed(vm, Top(space));
    PrivateIff(va);
    PrivateReachable(vm, space, va);
  }

  // An address below 2^47 is one of these.
  lemma LowAddress(ram: Ram, vm: Vm, space: nat, va: nat)
    requires Coupled(ram, vm) && Top(space) in vm.tables && va < 0x8000_0000_0000
    ensures space != KERNEL && Canonical(va) && PageOf(va) == va / 4096
    ensures Reachable(vm, space, va / 4096) && PageIn(space, va / 4096) == Page(space, va / 4096)
    ensures HwPml4(va) != SELF_SLOT
  {
    hide TablesCoupled, DataCoupled, PoolOk, PagesOk;
    assert Placed(vm, Top(space));
    PageOfLow(va);
    PageFields(va);
    hide PageOf, HwPml4;
    var n := va / 4096;
    assert n < 0x8_0000_0000;
    assert n / 512 / 512 / 512 < 256;
  }

  // ------------------------------------------------------------ copy on write

  // Byte `i` of a user page.
  lemma TranslateByte(ram: Ram, vm: Vm, space: nat, va: nat, i: nat)
    requires Coupled(ram, vm) && Top(space) in vm.tables
    requires Private(va) && va % 4096 == 0 && i < 4096 && UserPage(space, va) in vm.pages
    ensures vm.tables[Top(space)] < |ram| && OffsetOf(va + i) == i
    ensures Translate(ram, vm.tables[Top(space)], va + i).Some?
    ensures Translate(ram, vm.tables[Top(space)], va + i).value.frame == vm.pages[UserPage(space, va)].frame
  {
    hide Coupled, Translate, Canonical, HwPml4, PageOf, PageIn, Reachable, OffsetOf;
    PrivateAddress(ram, vm, space, va);
    SamePage(va, i);
    TranslateIs(ram, vm, space, va + i);
  }

  // The first `i` bytes of one frame, and the rest of another.
  function Spliced(a: Frame, b: Frame, i: nat): Frame {
    seq(4096, k requires 0 <= k < 4096 => if k < i then a[k] else b[k])
  }

  lemma SplicedEnds(a: Frame, b: Frame)
    ensures Spliced(a, b, 0) == b && Spliced(a, b, 4096) == a
  {
  }

  lemma SplicedStep(a: Frame, b: Frame, i: nat)
    requires i < 4096
    ensures Spliced(a, b, i)[i := a[i]] == Spliced(a, b, i + 1)
  {
  }

  // The frame of a user page is not a table.
  lemma UserFrame(ram: Ram, vm: Vm, p: Page)
    requires Coupled(ram, vm) && p in vm.pages && p.space != KERNEL
    ensures var f := vm.pages[p].frame;
      && vm.base < f < vm.base + |vm.alloc.refs| <= |vm.data| == |ram|
      && !IsTable(vm, f) && ram[f] == vm.data[f] && !FreeFrame(vm, f)
  {
    hide TablesCoupled;
  }

  lemma DecCoupled(ram: Ram, vm: Vm, f: nat)
    requires Coupled(ram, vm) && vm.base < f < vm.base + |vm.alloc.refs| && !FreeFrame(vm, f)
    ensures Coupled(ram, DecRef(vm, f))
    ensures DecRef(vm, f) == vm.(alloc := DecRef(vm, f).alloc)
  {
    hide TablesCoupled, DataCoupled;
    RefWellFormed(vm, f);
    AllocCoupled(ram, vm, DecRef(vm, f));
  }

  lemma SplitIs(vm: Vm, p: Page)
    requires WellFormed(vm) && p in vm.pages
    ensures vm.base < vm.pages[p].frame < vm.base + |vm.alloc.refs| <= |vm.data|
    ensures var v := DecRef(vm, vm.pages[p].frame);
      && v.alloc.Valid()
      && (v.alloc.Exhausted() ==> Split(vm, p) == None)
      && (!v.alloc.Exhausted() ==>
            && NextFrame(v) < |vm.data|
            && Split(vm, p) == Some(SetData(SetPage(TakeFrame(v), p, Pte(NextFrame(v), true)),
                                            NextFrame(v), vm.data[vm.pages[p].frame])))
  {
    RefWellFormed(vm, vm.pages[p].frame);
    var v := DecRef(vm, vm.pages[p].frame);
    if !v.alloc.Exhausted() {
      Taken(v);
    }
  }

  // Split in three moves: drop the count, take a frame and write the entry, copy.
  lemma SplitParts(ram: Ram, vm: Vm, space: nat, n: nat)
    requires Coupled(ram, vm) && InUse(vm, space) && n < PRIVATE_LIMIT && Page(space, n) in vm.pages
    ensures space != KERNEL && Pt(space, n) in vm.tables && vm.tables[Pt(space, n)] < |ram|
    ensures WellFormed(vm) && vm.base < vm.pages[Page(space, n)].frame < vm.base + |vm.alloc.refs| <= |vm.data| == |ram|
    ensures var p := Page(space, n); var f := vm.pages[p].frame; var v := DecRef(vm, f);
      && ram[f] == vm.data[f] && Coupled(ram, v) && v.alloc.Valid()
      && (v.alloc.Exhausted() ==> Split(vm, p) == None)
      && (!v.alloc.Exhausted() ==>
            var e := Pte(NextFrame(v), true); var w := SetPage(TakeFrame(v), p, e);
            && e.frame < |vm.data|
            && w == v.(alloc := v.alloc.Take(), pages := v.pages[p := e])
            && Coupled(Poke(ram, vm.tables[Pt(space, n)], n % 512, PageWord(e)), w)
            && Split(vm, p) == Some(SetData(w, e.frame, vm.data[f])))
  {
    hide Coupled, WellFormed, FreeFrame, Split, Pt, IsTable, Poke, PageWord, Reachable, PageIn, Frames.Exhausted;
    UserReachable(vm, space, n);
    CoupledValid(ram, vm);
    var p := Page(space, n);
    EntryTable(space, n);
    PageTable(vm, p);
    UserFrame(ram, vm, p);
    DecCoupled(ram, vm, vm.pages[p].frame);
    SplitIs(vm, p);
    MapTakenCoupled(ram, DecRef(vm, vm.pages[p].frame), space, n);
  }

  lemma PageTable(vm: Vm, p: Page)
    requires WellFormed(vm) && p in vm.pages
    ensures PtOf(p) in vm.tables
  {
  }

  lemma SavedFrom(ram: Ram, vm: Vm, space: nat, va: nat)
    requires Coupled(ram, vm) && InUse(vm, space) && UserPage(space, va) in vm.pages
    ensures var f := vm.pages[UserPage(space, va)].frame;
            f < |ram| == |vm.data| && ram[f] == vm.data[f] && !IsTable(vm, f)
  {
    UserFrame(ram, vm, UserPage(space, va));
  }

  lemma EntryBlock(e: Pte, base: nat)
    requires e.frame > base
    ensures BlockIndex(PageWord(e), 4096 * base) == e.frame - base
    ensures PageWord(e) != 5 && PageWord(e) != 0
  {
    BlockOfEntry(e, base);
  }

  lemma DecIs(vm: Vm, f: nat)
    requires vm.base <= f < vm.base + |vm.alloc.refs|
    ensures DecRef(vm, f) == vm.(alloc := vm.alloc.Dec(f - vm.base))
  {
  }

  lemma WordOfNew(f: nat)
    ensures PageWord(Pte(f, true)) == f * 4096 + 7
  {
  }

  // Where unmap_phyaddr_range has a meaning and keeps away from the pages of the kernel: the
  // int does not overflow before it reaches the end, and one below zero, which counts as an
  // address of the last 2 GiB, is not below the end.
  predicate RangeOk(vstartAddr: nat, vendAddr: nat) {
    if ToInt(vstartAddr) < 0 then vendAddr <= ToWord(ToInt(vstartAddr / 4096 * 4096))
    else vendAddr <= 0x7FFF_F000
  }

  // Cutting to an int and rounding down to a page commute.
  lemma IntPage(a: nat)
    ensures ToInt(a / 4096 * 4096) == ToInt(a) / 4096 * 4096
  {
    var m := a % 0x1_0000_0000;
    assert a / 4096 * 4096 % 0x1_0000_0000 == m / 4096 * 4096;
  }

  class Mmu {
    const frames: PhysicalMemoryManager
    const cowPage: array<Byte>
    var ram: Ram
    var cr3: nat           // the frame of the top-level table in use
    ghost var vm: Vm
    ghost var space: nat   // the address space that table belongs to

    // The bytes of memory show `vm`, except in tables still being filled.
    ghost predicate Shows(raw: set<Table>)
      reads this, frames, frames.pageList
    {
      && frames.Valid() && frames.freeMemory == 4096 * vm.base && vm.alloc == frames.View()
      && cowPage.Length == 4096
      && Coupled(ram, vm, raw)
      && Top(space) in vm.tables && cr3 == vm.tables[Top(space)] < |ram|
    }

    ghost predicate Valid()
      reads this, frames, frames.pageList
    {
      Shows({})
    }

    // Memory as boot left it, showing `vm`, with the top-level table of `space` in use.
    constructor (frames: PhysicalMemoryManager, cowPage: array<Byte>, ram: Ram, cr3: nat, ghost vm: Vm, ghost space: nat)
      requires cowPage.Length == 4096
      requires frames.Valid() && frames.freeMemory == 4096 * vm.base && vm.alloc == frames.View()
      requires Coupled(ram, vm) && Top(space) in vm.tables && cr3 == vm.tables[Top(space)]
      ensures Valid()
      ensures this.frames == frames && this.cowPage == cowPage && this.ram == ram && this.cr3 == cr3 && this.vm == vm && this.space == space
    {
      this.frames, this.cowPage, this.ram, this.cr3, this.vm, this.space := frames, cowPage, ram, cr3, vm, space;
    }

    // A kernel access: the walk must succeed, rights do not matter.
    predicate Maps(va: nat)
      reads this
    {
      cr3 < |ram| && OffsetOf(va) % 8 == 0 && Translate(ram, cr3, va).Some?
    }

    function ReadWord(va: nat): nat
      reads this
      requires Maps(va)
    {
      WordAt(ram[Translate(ram, cr3, va).value.frame], OffsetOf(va) / 8)
    }

    method WriteWord(va: nat, w: nat)
      requires Maps(va)
      modifies this`ram
      ensures ram == Poke(old(ram), old(Translate(ram, cr3, va)).value.frame, OffsetOf(va) / 8, w)
    {
      var f := Translate(ram, cr3, va).value.frame;
      ram := ram[f := SetWord(ram[f], OffsetOf(va) / 8, w)];
    }

    // Word `j` of a table on the way to page `n`.
    lemma Reach(raw: set<Table>, n: nat, level: nat, j: nat)
      requires Shows(raw) && Reachable(vm, space, n) && 1 <= level <= 4 && j < 512
      requires PathShown(vm, raw, space, n, level)
      ensures TableAt(space, n, level) in vm.tables
      ensures var va := TableAddress(n, level) + 8 * j;
              && Maps(va) && OffsetOf(va) / 8 == j
              && Translate(ram, cr3, va).value.frame == vm.tables[TableAt(space, n, level)]
    {
      ReachTable(ram, vm, raw, space, n, level, j);
      hide Coupled, PathShown, Reachable, Translate, TableAddress, TableAt, OffsetOf;
      hide PhysicalMemoryManager.Valid, PhysicalMemoryManager.View;
    }

    // One level of the descent: if the entry for page `n` is empty, take a frame, write
    // the entry, and clear the new table through the address that now reaches it.
    // False when memory is exhausted.
    method EnsureEntry(table: nat, i: nat, child: nat, ghost n: nat, ghost level: nat) returns (ok: bool)
      requires Valid() && Reachable(vm, space, n) && 2 <= level <= 4
      requires PathShown(vm, {}, space, n, level)
      requires table == TableAddress(n, level) && child == TableAddress(n, level - 1) && i == IndexAt(n, level)
      modifies this`ram, this`vm, frames, frames.pageList
      ensures Valid()
      ensures Placed(old(vm), TableAt(space, n, level - 1))
      ensures ok ==> EnsureTable(old(vm), TableAt(space, n, level - 1)) == Some(vm)
      ensures ok ==> Reachable(vm, space, n) && PathShown(vm, {}, space, n, level - 1)
      ensures !ok ==> EnsureTable(old(vm), TableAt(space, n, level - 1)) == None
    {
      hide Coupled, PathShown, Reachable, Placed, TableAt, TableAddress, IndexAt, Child;
      hide Translate, OffsetOf, WordAt, PhysicalMemoryManager.Valid, PhysicalMemoryManager.View;
      ghost var u, vm0 := TableAt(space, n, level - 1), vm;
      Reach({}, n, level, i);
      NextTable(ram, vm, space, n, level);
      EntryIsTable(ram, vm, TableAt(space, n, level), i);
      EnsureIs(ram, vm, u);
      var entry := ReadWord(table + 8 * i);
      if entry != 0 {
        PathStep(vm, vm, {}, space, n, level);
        return true;
      }
      ok := LinkTable(table, i, n, level);
      if ok {
        PathStep(vm0, vm, {u}, space, n, level);
        ClearTable(child, n, level - 1, vm0);
        PathStep(vm0, vm, {}, space, n, level);
      }
    }

    // The common part of map_phyaddr and set_Cow: make sure of the three tables on the
    // way to an address, and compute the address of the last.
    method Descend(vadd: nat) returns (ok: bool, p4: nat)
      requires Valid() && Reachable(vm, space, PageOf(vadd))
      modifies this`ram, this`vm, frames, frames.pageList
      ensures Valid()
      ensures !ok ==> EnsurePath(old(vm), space, PageOf(vadd)) == None
      ensures ok ==> EnsurePath(old(vm), space, PageOf(vadd)) == Some(vm)
      ensures ok ==> Reachable(vm, space, PageOf(vadd)) && PathShown(vm, {}, space, PageOf(vadd), 1)
      ensures ok ==> p4 == TableAddress(PageOf(vadd), 1)
    {
      hide Coupled, PathShown, Reachable, Placed, TableAt, IndexAt, Chain, HighOnes, PageOf, P1Index, P2Index, P3Index, P4Index;
      hide PhysicalMemoryManager.Valid, PhysicalMemoryManager.View, EnsureTable, EnsurePath, TableAddress;
      ghost var n := PageOf(vadd);
      IndicesOfPage(vadd);
      AddressesOnPath(n);
      BaseHighOnes();
      EnsurePathIs(ram, vm, space, n);
      p4 := 0;
      var p1Index, p2Index, p3Index := P1Index(vadd), P2Index(vadd), P3Index(vadd);
      var base := Chain(BASE, SELF_SLOT, SELF_SLOT, SELF_SLOT, SELF_SLOT);
      Rebased(BASE, SELF_SLOT, SELF_SLOT, SELF_SLOT, SELF_SLOT);
      var p1 := base;
      base := Chain(base, SELF_SLOT, SELF_SLOT, SELF_SLOT, p1Index);
      Rebased(p1, SELF_SLOT, SELF_SLOT, SELF_SLOT, p1Index);
      var p2 := base;
      StartOfPath(vm, space, n);
      ok := EnsureEntry(p1, p1Index, p2, n, 4);
      if !ok {
        return;
      }
      base := Chain(base, SELF_SLOT, SELF_SLOT, p1Index, p2Index);
      Rebased(p2, SELF_SLOT, SELF_SLOT, p1Index, p2Index);
      var p3 := base;
      ok := EnsureEntry(p2, p2Index, p3, n, 3);
      if !ok {
        return;
      }
      base := Chain(base, SELF_SLOT, p1Index, p2Index, p3Index);
      Rebased(p3, SELF_SLOT, p1Index, p2Index, p3Index);
      ok := EnsureEntry(p3, p3Index, base, n, 2);
      p4 := base;
    }

    function ReadByte(va: nat): Byte
      reads this
      requires cr3 < |ram| && Translate(ram, cr3, va).Some?
    {
      ram[Translate(ram, cr3, va).value.frame][OffsetOf(va)]
    }

    method WriteByte(va: nat, b: Byte)
      requires cr3 < |ram| && Translate(ram, cr3, va).Some?
      modifies this`ram
      ensures var f := old(Translate(ram, cr3, va)).value.frame;
              ram == old(ram)[f := old(ram)[f][OffsetOf(va) := b]]
    {
      var f := Translate(ram, cr3, va).value.frame;
      ram := ram[f := ram[f][OffsetOf(va) := b]];
    }

    // Eight zero bytes, at any alignment inside one page.
    method ZeroEight(va: nat)
      requires cr3 < |ram| && Translate(ram, cr3, va).Some? && OffsetOf(va) + 8 <= 4096
      modifies this`ram
      ensures var f := old(Translate(ram, cr3, va)).value.frame;
              ram == old(ram)[f := Store(old(ram)[f], OffsetOf(va), 8, 0)]
    {
      var f := Translate(ram, cr3, va).value.frame;
      ram := ram[f := Store(ram[f], OffsetOf(va), 8, 0)];
    }

    // The clearing loop: eight zero bytes at each of the first 512 byte offsets of the page.
    method ClearPage(vadd: nat)
      requires Valid() && vadd % 4096 == 0 && Writable(vm, space, vadd)
      modifies this`ram, this`vm
      ensures Valid()
      ensures old(vm).pages[PageIn(space, PageOf(vadd))].frame < |old(vm).data|
      ensures vm == Cleared(old(vm), old(vm).pages[PageIn(space, PageOf(vadd))].frame)
    {
      hide Coupled, Canonical, PageOf, HwPml4, OffsetOf, Translate, Store, ZeroPrefix, IsTable;
      hide PhysicalMemoryManager.Valid, PhysicalMemoryManager.View;
      ghost var f := vm.pages[PageIn(space, PageOf(vadd))].frame;
      PageFrameInRam(ram, vm, PageIn(space, PageOf(vadd)));
      DataAt(ram, vm, f);
      ghost var ram0, fr := ram, vm.data[f];
      for i := 0 to 512
        modifies this`ram
        invariant ram == ram0[f := ZeroPrefix(fr, if i == 0 then 0 else i + 7)]
      {
        ClearedSoFar(ram0, vm, space, vadd, f, i);
        ZeroEight(vadd + i);
      }
      SetDataCoupled(ram0, vm, f, ZeroPrefix(fr, CLEARED));
      vm := Cleared(vm, f);
    }

    lemma ReachEntry(n: nat)
      requires Valid() && Reachable(vm, space, n) && PathShown(vm, {}, space, n, 1)
      ensures Pt(space, n) in vm.tables
      ensures var va := TableAddress(n, 1) + 8 * IndexAt(n, 1);
              && Maps(va) && OffsetOf(va) / 8 == n % 512
              && Translate(ram, cr3, va).value.frame == vm.tables[Pt(space, n)]
              && ReadWord(va) == if PageIn(space, n) in vm.pages then PageWord(vm.pages[PageIn(space, n)]) else 0
    {
      hide Coupled, Pt, PageIn, PathShown, Reachable, Translate, OffsetOf, TableAddress;
      Reach({}, n, 1, n % 512);
      PageEntryIs(ram, vm, space, n);
    }

    // sys/paging.c, map_phyaddr.  None when memory is exhausted.
    method MapPhyaddr(vadd: nat) returns (r: Option<nat>)
      requires Valid() && vadd % 4096 == 0 && Canonical(vadd) && Reachable(vm, space, PageOf(vadd))
      requires PageIn(space, PageOf(vadd)) in vm.pages ==> Writable(vm, space, vadd)
      modifies this`ram, this`vm, frames, frames.pageList
      ensures Valid()
      ensures r.None? ==> MapPage(old(vm), space, PageOf(vadd)) == None
      ensures r.Some? ==> MapPage(old(vm), space, PageOf(vadd)) == Some(vm)
      ensures r.Some? ==>
        && PageIn(space, PageOf(vadd)) in vm.pages
        && r.value / 4096 == vm.pages[PageIn(space, PageOf(vadd))].frame
    {
      hide Coupled, WellFormed, PathShown, Reachable, Translate, OffsetOf, TableAddress, Pt, PageIn, PageOf, Canonical;
      hide IndexAt, P4Index, BitOr, SetWord, WordAt, EnsurePath, MapPage, IsTable, HwPml4, Frames.Valid, Frames.Take;
      hide Frames.Exhausted, PhysicalMemoryManager.Valid, ZeroPrefix;
      ghost var n := PageOf(vadd);
      IndicesOfPage(vadd);
      SlotNotSelf(vm, space, vadd);
      MapPageIs(ram, vm, space, n);
      if PageIn(space, n) in vm.pages {
        WritableKept(ram, vm, space, vadd);
      }
      var p4Index := P4Index(vadd);
      var ok, p4 := Descend(vadd);
      if !ok {
        return None;
      }
      ReachEntry(n);
      var padd := ReadWord(p4 + 8 * p4Index);
      if padd % 2 == 0 {
        MapTakenCoupled(ram, vm, space, n);
        var page := frames.GetPage();
        if page.None? {
          return None;
        }
        padd := page.value;
        EntryWords(NextFrame(vm));
        WriteWord(p4 + 8 * p4Index, BitOr(padd / 4096 * 4096, 7));
        vm := SetPage(TakeFrame(vm), PageIn(space, n), Pte(NextFrame(vm), true));
      }
      ClearPage(vadd);
      return Some(padd);
    }

    // sys/paging.c, set_Cow, in the address space in use.  False when memory is exhausted.
    method SetCow(vadd: nat, padd: nat) returns (ok: bool)
      requires Valid() && Reachable(vm, space, PageOf(vadd)) && Mappable(vm, padd / 4096)
      modifies this`ram, this`vm, frames, frames.pageList
      ensures Valid()
      ensures !ok ==> MapCow(old(vm), space, PageOf(vadd), padd / 4096) == None
      ensures ok ==> MapCow(old(vm), space, PageOf(vadd), padd / 4096) == Some(vm)
    {
      hide Coupled, WellFormed, PathShown, Reachable, Translate, OffsetOf, TableAddress, Pt, PageIn, PageOf;
      hide IndexAt, P4Index, BitOr, SetWord, WordAt, EnsurePath, MapCow, Mappable, PhysicalMemoryManager.Valid;
      hide PhysicalMemoryManager.View;
      ghost var n := PageOf(vadd);
      IndicesOfPage(vadd);
      MapCowIs(ram, vm, space, n, padd / 4096);
      var p4Index, p4 := P4Index(vadd), 0;
      ok, p4 := Descend(vadd);
      if !ok {
        return;
      }
      ReachEntry(n);
      EntryWords(padd / 4096);
      MapSharedCoupled(ram, vm, space, n, Pte(padd / 4096, false));
      WriteWord(p4 + 8 * p4Index, BitOr(padd / 4096 * 4096, 5));
      vm := SetPage(vm, PageIn(space, n), Pte(padd / 4096, false));
    }

    // Whether the three tables exist, and the address of the last.
    method Lookup(vadd: nat) returns (found: bool, p4: nat)
      requires Valid() && Reachable(vm, space, PageOf(vadd))
      ensures found <==> Pt(space, PageOf(vadd)) in vm.tables
      ensures !found ==> PageIn(space, PageOf(vadd)) !in vm.pages
      ensures found ==> PathShown(vm, {}, space, PageOf(vadd), 1) && p4 == TableAddress(PageOf(vadd), 1)
    {
      hide Coupled, PathShown, Reachable, Placed, IndexAt, Chain, HighOnes, PageOf, Translate, OffsetOf, WordAt;
      hide PhysicalMemoryManager.Valid, PhysicalMemoryManager.View, TableAddress, P1Index, P2Index, P3Index;
      ghost var n := PageOf(vadd);
      IndicesOfPage(vadd);
      AddressesOnPath(n);
      BaseHighOnes();
      found, p4 := false, 0;
      var p1Index, p2Index, p3Index := P1Index(vadd), P2Index(vadd), P3Index(vadd);
      var base := Chain(BASE, SELF_SLOT, SELF_SLOT, SELF_SLOT, SELF_SLOT);
      StartOfPath(vm, space, n);
      ReachIndex(n, 4);
      if ReadWord(base + 8 * p1Index) == 0 {
        NoPathNoPage(ram, vm, space, n, 3);
        return;
      }
      PathDown(vm, space, n, 4);
      Rebased(BASE, SELF_SLOT, SELF_SLOT, SELF_SLOT, SELF_SLOT);
      Rebased(base, SELF_SLOT, SELF_SLOT, SELF_SLOT, p1Index);
      base := Chain(base, SELF_SLOT, SELF_SLOT, SELF_SLOT, p1Index);
      ReachIndex(n, 3);
      if ReadWord(base + 8 * p2Index) == 0 {
        NoPathNoPage(ram, vm, space, n, 2);
        return;
      }
      PathDown(vm, space, n, 3);
      Rebased(base, SELF_SLOT, SELF_SLOT, p1Index, p2Index);
      base := Chain(base, SELF_SLOT, SELF_SLOT, p1Index, p2Index);
      ReachIndex(n, 2);
      if ReadWord(base + 8 * p3Index) == 0 {
        NoPathNoPage(ram, vm, space, n, 1);
        return;
      }
      PathDown(vm, space, n, 2);
      Rebased(base, SELF_SLOT, p1Index, p2Index, p3Index);
      found, p4 := true, Chain(base, SELF_SLOT, p1Index, p2Index, p3Index);
    }

    lemma ReachIndex(n: nat, level: nat)
      requires Valid() && Reachable(vm, space, n) && 2 <= level <= 4
      requires PathShown(vm, {}, space, n, level)
      ensures var va := TableAddress(n, level) + 8 * IndexAt(n, level);
              Maps(va) && (ReadWord(va) == 0 <==> TableAt(space, n, level - 1) !in vm.tables)
    {
      hide Coupled, PathShown, TableAt, Translate, OffsetOf, TableAddress, WordAt;
      Reach({}, n, level, IndexAt(n, level));
      NextTable(ram, vm, space, n, level);
      EntryIsTable(ram, vm, TableAt(space, n, level), IndexAt(n, level));
    }

    // sys/task_manager.c, get_phys_addr: the entry word of the page, or 0.
    method GetPhysAddr(addr: nat) returns (padd: nat)
      requires Valid() && Reachable(vm, space, PageOf(addr))
      ensures var e := Entry(vm, PageIn(space, PageOf(addr))); padd == if e.None? then 0 else PageWord(e.value)
    {
      hide Coupled, PathShown, Reachable, IndexAt, PageOf, Translate, OffsetOf, WordAt, TableAddress, P4Index, PageWord;
      IndicesOfPage(addr);
      var found, p4 := Lookup(addr);
      if !found {
        return 0;
      }
      ReachEntry(PageOf(addr));
      padd := ReadWord(p4 + 8 * P4Index(addr));
    }

    // sys/task_manager.c, check_cow, on a page that is present: is it read-only?
    method CheckCow(addr: nat) returns (cow: bool)
      requires Valid() && Reachable(vm, space, PageOf(addr)) && PageIn(space, PageOf(addr)) in vm.pages
      ensures cow <==> !vm.pages[PageIn(space, PageOf(addr))].writable
    {
      hide Coupled, PathShown, Reachable, IndexAt, PageOf, Translate, OffsetOf, WordAt, TableAddress, Chain, HighOnes;
      hide P1Index, P2Index, P3Index, P4Index, PageWord;
      ghost var n := PageOf(addr);
      IndicesOfPage(addr);
      AddressesOnPath(n);
      BaseHighOnes();
      PresentPath(ram, vm, space, n);
      ReachEntry(n);
      PageWordBits(vm.pages[PageIn(space, n)]);
      var p4 := Chain(BASE, SELF_SLOT, P1Index(addr), P2Index(addr), P3Index(addr));
      var w := ReadWord(p4 + 8 * P4Index(addr));
      return w != 0 && w % 8 == 5;
    }

    // The page is copied to the buffer, byte by byte.
    method SavePage(cowAddr: nat)
      requires Valid() && cowAddr % 4096 == 0 && Private(cowAddr)
      requires UserPage(space, cowAddr) in vm.pages
      modifies cowPage
      ensures vm.pages[UserPage(space, cowAddr)].frame < |vm.data|
      ensures cowPage[..] == vm.data[vm.pages[UserPage(space, cowAddr)].frame]
    {
      hide Coupled, Translate, OffsetOf, PhysicalMemoryManager.Valid, PhysicalMemoryManager.View;
      PrivateAddress(ram, vm, space, cowAddr);
      SavedFrom(ram, vm, space, cowAddr);
      for i := 0 to 4096
        invariant cowPage[..i] == vm.data[vm.pages[UserPage(space, cowAddr)].frame][..i]
      {
        TranslateByte(ram, vm, space, cowAddr, i);
        cowPage[i] := ReadByte(cowAddr + i);
      }
      assert cowPage[..] == cowPage[..4096];
    }

    // The buffer is copied back to the page, byte by byte.
    method RestorePage(cowAddr: nat)
      requires Valid() && cowAddr % 4096 == 0 && Private(cowAddr)
      requires UserPage(space, cowAddr) in vm.pages
      modifies this`ram, this`vm
      ensures Valid() && old(vm).pages[UserPage(space, cowAddr)].frame < |old(vm).data|
      ensures vm == SetData(old(vm), old(vm).pages[UserPage(space, cowAddr)].frame, cowPage[..])
    {
      hide Private, UserPage, PageIn, Reachable, PageOf;
      hide Coupled, Translate, OffsetOf, IsTable, PhysicalMemoryManager.Valid, PhysicalMemoryManager.View, Spliced;
      PrivateAddress(ram, vm, space, cowAddr);
      SavedFrom(ram, vm, space, cowAddr);
      ghost var f, ram0 := vm.pages[UserPage(space, cowAddr)].frame, ram;
      ghost var fr, was: Frame := cowPage[..], ram0[f];
      SplicedEnds(fr, was);
      assert ram0[f := was] == ram0;
      for i := 0 to 4096
        modifies this`ram
        invariant ram == ram0[f := Spliced(fr, was, i)]
      {
        SetDataCoupled(ram0, vm, f, Spliced(fr, was, i));
        TranslateByte(ram, SetData(vm, f, Spliced(fr, was, i)), space, cowAddr, i);
        SplicedStep(fr, was, i);
        WriteByte(cowAddr + i, cowPage[i]);
      }
      SetDataCoupled(ram0, vm, f, fr);
      vm := SetData(vm, f, fr);
    }

    // sys/task_manager.c, cow, on a page that is present.  False when memory is exhausted.
    method Cow(addr: nat) returns (ok: bool)
      requires Valid() && Private(addr) && UserPage(space, addr) in vm.pages
      modifies this`ram, this`vm, cowPage, frames, frames.pageList
      ensures old(WellFormed(vm))
      ensures ok ==> Valid() && Split(old(vm), UserPage(space, addr)) == Some(vm)
      ensures !ok ==> Split(old(vm), UserPage(space, addr)) == None
    {
      hide Coupled, WellFormed, PathShown, Reachable, Translate, OffsetOf, TableAddress, Pt, PageIn, PageOf;
      hide IndexAt, P1Index, P2Index, P3Index, P4Index, BitOr, SetWord, WordAt, Split, IsTable, Chain, HighOnes;
      hide PhysicalMemoryManager.Valid, Frames.Valid, Frames.Exhausted, Frames.Take, Poke, PageWord, BlockIndex, FreeFrame, DecRef;
      ghost var n, p := PageOf(addr), UserPage(space, addr);
      PrivateAddress(ram, vm, space, addr);
      PrivatePage(addr);
      PageStart(addr);
      SplitParts(ram, vm, space, n);
      var cowAddr := addr / 4096 * 4096;
      SavePage(cowAddr);
      var p4 := EntryAddress(addr);
      var oldPage := ReadWord(p4);
      ghost var e := vm.pages[p];
      EntryBlock(e, vm.base);
      if oldPage != 5 && oldPage != 0 {
        frames.DecrementReferenceCount(oldPage);
      }
      DecIs(vm, e.frame);
      var page := frames.GetPage();
      if page.None? {
        return false;
      }
      ghost var v := DecRef(vm, e.frame);
      EntryWords(NextFrame(v));
      WordOfNew(NextFrame(v));
      WriteWord(p4, BitOr(page.value / 4096 * 4096, 7));
      vm := SetPage(TakeFrame(v), p, Pte(NextFrame(v), true));
      CoupledValid(ram, vm);
      RestorePage(cowAddr);
      return true;
    }

    // The address of the entry word of a page that is present.
    method EntryAddress(addr: nat) returns (va: nat)
      requires Valid() && Reachable(vm, space, PageOf(addr)) && PageIn(space, PageOf(addr)) in vm.pages
      ensures Maps(va) && OffsetOf(va) / 8 == PageOf(addr) % 512 && Pt(space, PageOf(addr)) in vm.tables
      ensures Translate(ram, cr3, va).value.frame == vm.tables[Pt(space, PageOf(addr))]
      ensures ReadWord(va) == PageWord(vm.pages[PageIn(space, PageOf(addr))])
    {
      hide Coupled, PathShown, Reachable, IndexAt, PageOf, Translate, OffsetOf, WordAt, TableAddress, Chain, HighOnes;
      hide P1Index, P2Index, P3Index, P4Index, PageWord;
      ghost var n := PageOf(addr);
      IndicesOfPage(addr);
      AddressesOnPath(n);
      BaseHighOnes();
      PresentPath(ram, vm, space, n);
      ReachEntry(n);
      va := Chain(BASE, SELF_SLOT, P1Index(addr), P2Index(addr), P3Index(addr)) + 8 * P4Index(addr);
    }

    // sys/paging.c, unmap_phyaddr.
    method UnmapPhyaddr(vadd: nat)
      requires Valid() && Counted(vm) && vadd % 4096 == 0 && Canonical(vadd)
      requires Reachable(vm, space, PageOf(vadd)) && PageIn(space, PageOf(vadd)).space != KERNEL
      modifies this`ram, this`vm, frames, frames.pageList
      ensures Valid()
      ensures PageIn(space, PageOf(vadd)) !in old(vm).pages ==> vm == old(vm)
      ensures PageIn(space, PageOf(vadd)) in old(vm).pages ==> vm == Unmap(old(vm), PageIn(space, PageOf(vadd)))
    {
      hide Coupled, WellFormed, Counted, PathShown, Reachable, IndexAt, PageOf, Translate, OffsetOf, WordAt, Canonical;
      hide TableAddress, P4Index, PageWord, Unmap, HwPml4, IsTable, SetWord, BlockIndex, ZeroPrefix, PageIn, Pt;
      hide PhysicalMemoryManager.Valid, Frames.Dec, Frames.Give;
      ghost var n, p := PageOf(vadd), PageIn(space, PageOf(vadd));
      IndicesOfPage(vadd);
      SlotNotSelf(vm, space, vadd);
      CoupledValid(ram, vm);
      var found, p4 := Lookup(vadd);
      if !found {
        return;
      }
      ReachEntry(n);
      var padd := ReadWord(p4 + 8 * P4Index(vadd));
      if padd % 2 == 0 {
        PresentBit(vm, p);
        return;
      }
      PresentBit(vm, p);
      UnmapParts(vm, p);
      ghost var vm0, e := vm, vm.pages[p];
      BlockOfEntry(e, vm.base);
      var n1 := frames.GetReferenceCount(padd);
      if n1 == 1 {
        ClearPage(vadd);
        PathSame(vm0, vm, space, n);
        ReachEntry(n);
        frames.FreePage(padd);
      }
      EntryTable(space, n);
      UnmapCoupled(ram, vm, Unmap(vm0, p), p);
      frames.DecrementReferenceCount(padd);
      WriteWord(p4 + 8 * P4Index(vadd), 0);
      vm := Unmap(vm0, p);
    }

    // sys/paging.c, unmap_phyaddr_range: whole pages, from the one holding the start, up to
    // the one holding the end; a page that begins at the end is left alone.  The loop
    // variable is an int: the start is cut to one, and compared as a 64-bit word again.
    method UnmapPhyaddrRange(vstartAddr: nat, vendAddr: nat)
      requires Valid() && Counted(vm) && vstartAddr < U64 && RangeOk(vstartAddr, vendAddr)
      modifies this`ram, this`vm, frames, frames.pageList
      ensures Valid() && Counted(vm) && space != KERNEL
      ensures old(WellFormed(vm))
      ensures ToInt(vstartAddr) < 0 ==> vm == old(vm) && ram == old(ram)
      ensures ToInt(vstartAddr) >= 0 ==>
                vm == UnmapPages(old(vm), space, ToInt(vstartAddr) / 4096, (vendAddr + 4095) / 4096)
    {
      hide Coupled, WellFormed, Counted, PageOf, Canonical, Unmap, UnmapPages, Reachable;
      hide PhysicalMemoryManager.Valid, PhysicalMemoryManager.View;
      var start, end := vstartAddr, vendAddr;
      if end % 4096 != 0 {
        end := (end / 4096 + 1) * 4096;
      }
      if start % 4096 != 0 {
        start := start / 4096 * 4096;
      }
      IntPage(vstartAddr);
      LowAddress(ram, vm, space, 0);
      CoupledValid(ram, vm);
      var i := ToInt(start);
      if i < 0 {
        assert ToWord(i) >= end;
        return;
      }
      ghost var vm0, first, last := vm, ToInt(vstartAddr) / 4096, (vendAddr + 4095) / 4096;
      assert i == 4096 * first && end == 4096 * last;
      ghost var k := first;
      while ToWord(i) < end
        invariant Valid() && Counted(vm) && WellFormed(vm)
        invariant i == 4096 * k && k < 0x8_0000
        invariant UnmapPages(vm, space, k, last) == UnmapPages(vm0, space, first, last)
        decreases end - i
      {
        assert i % 4096 == 0 && i / 4096 == k;
        LowAddress(ram, vm, space, i);
        UnmapPagesStep(vm, space, k, last);
        UnmapPhyaddr(i);
        CoupledValid(ram, vm);
        i := i + 4096;
        k := k + 1;
      }
      UnmapPagesEnd(vm, space, k, last);
    }

    // Take a frame and write its address in the empty entry.
    method LinkTable(table: nat, i: nat, ghost n: nat, ghost level: nat) returns (ok: bool)
      requires Valid() && Reachable(vm, space, n) && 2 <= level <= 4
      requires PathShown(vm, {}, space, n, level) && TableAt(space, n, level - 1) !in vm.tables
      requires table == TableAddress(n, level) && i == IndexAt(n, level)
      modifies this`ram, this`vm, frames, frames.pageList
      ensures ok <==> !old(vm).alloc.Exhausted()
      ensures !ok ==> Valid() && vm == old(vm)
      ensures ok ==>
        && old(vm).alloc.Valid() && vm == AddTable(old(vm), TableAt(space, n, level - 1))
        && Shows({TableAt(space, n, level - 1)})
    {
      hide Coupled, PathShown, Reachable, Placed, TableAt, TableAddress, IndexAt, Child;
      hide Translate, OffsetOf, BitOr, SetWord, AddTable;
      hide PhysicalMemoryManager.Valid, Frames.Valid, Frames.Take, Frames.Exhausted;
      ghost var t, u := TableAt(space, n, level), TableAt(space, n, level - 1);
      Reach({}, n, level, i);
      NextTable(ram, vm, space, n, level);
      LinkPossible(ram, vm, t, i);
      var page := frames.GetPage();
      if page.None? {
        return false;
      }
      EntryWords(NextFrame(vm));
      WriteWord(table + 8 * i, BitOr(page.value / 4096 * 4096, 7));
      vm := AddTable(vm, u);
      return true;
    }

    // Every word of the new table is cleared, through the address that now reaches it.
    method ClearTable(base: nat, ghost n: nat, ghost level: nat, ghost vm0: Vm)
      requires 1 <= level < 4 && Shows({TableAt(space, n, level)})
      requires Reachable(vm, space, n) && PathShown(vm, {TableAt(space, n, level)}, space, n, level)
      requires base == TableAddress(n, level)
      requires WellFormed(vm0) && !vm0.alloc.Exhausted() && TableAt(space, n, level) !in vm0.tables
      requires vm0.alloc.Valid() && vm == AddTable(vm0, TableAt(space, n, level))
      modifies this`ram
      ensures Valid()
    {
      hide Coupled, WellFormed, PathShown, Reachable, TableAddress, Translate, OffsetOf, SetWord, WordAt, Frames.Valid;
      hide Frames.Exhausted, PhysicalMemoryManager.Valid, PhysicalMemoryManager.View, AddTable, NextFrame, TableAt;
      ghost var u := TableAt(space, n, level);
      Reach({u}, n, level, 0);
      NothingCleared(ram, vm, u);
      for j := 0 to 512
        invariant Shows({u})
        invariant u in vm.tables && ZeroUpTo(ram, vm.tables[u], j)
      {
        Reach({u}, n, level, j);
        ClearStep(ram, vm, u, j);
        WriteWord(base + 8 * j, 0);
      }
      ClearedTable(ram, vm0, space, n, level);
    }
  }

  // The first `j` words of a frame are zero.
  ghost predicate ZeroUpTo(ram: Ram, f: nat, j: nat) {
    f < |ram| && forall k :: 0 <= k < j <= 512 ==> WordAt(ram[f], k) == 0
  }

  lemma NothingCleared(ram: Ram, vm: Vm, u: Table)
    requires Coupled(ram, vm, {u}) && u in vm.tables
    ensures ZeroUpTo(ram, vm.tables[u], 0)
  {
  }

  lemma ClearStep(ram: Ram, vm: Vm, u: Table, j: nat)
    requires Coupled(ram, vm, {u}) && u in vm.tables && j < 512 && ZeroUpTo(ram, vm.tables[u], j)
    ensures Coupled(Poke(ram, vm.tables[u], j, 0), vm, {u})
    ensures ZeroUpTo(Poke(ram, vm.tables[u], j, 0), vm.tables[u], j + 1)
  {
    FillCoupled(ram, vm, u, SetWord(ram[vm.tables[u]], j, 0));
    forall k | 0 <= k <= j
      ensures WordAt(Poke(ram, vm.tables[u], j, 0)[vm.tables[u]], k) == 0
    {
      PokeWords(ram, vm.tables[u], j, 0, vm.tables[u], k);
    }
  }

  lemma ClearedTable(ram: Ram, vm0: Vm, space: nat, n: nat, level: nat)
    requires 1 <= level < 4 && WellFormed(vm0) && !vm0.alloc.Exhausted() && vm0.alloc.Valid()
    requires TableAt(space, n, level) !in vm0.tables
    requires Coupled(ram, AddTable(vm0, TableAt(space, n, level)), {TableAt(space, n, level)})
    requires ZeroUpTo(ram, AddTable(vm0, TableAt(space, n, level)).tables[TableAt(space, n, level)], 512)
    ensures Coupled(ram, AddTable(vm0, TableAt(space, n, level)))
  {
    FilledCoupled(ram, vm0, TableAt(space, n, level));
  }

  // LinkCoupled, as far as there is a frame to take.
  lemma LinkPossible(ram: Ram, vm: Vm, t: Table, i: nat)
    requires Coupled(ram, vm) && t in vm.tables && 1 < t.level <= 4 && i < 512
    requires Child(t, i) !in vm.tables && Placed(vm, Child(t, i))
    ensures vm.alloc.Valid() && vm.tables[t] < |ram|
    ensures !vm.alloc.Exhausted() ==>
      var v := AddTable(vm, Child(t, i));
      && Coupled(Poke(ram, vm.tables[t], i, TableWord(NextFrame(vm))), v, {Child(t, i)})
      && v == vm.(alloc := vm.alloc.Take(), tables := vm.tables[Child(t, i) := NextFrame(vm)])
  {
    if !vm.alloc.Exhausted() {
      LinkCoupled(ram, vm, t, i);
    }
  }

  lemma EntryIsTable(ram: Ram, vm: Vm, t: Table, i: nat)
    requires Coupled(ram, vm) && t in vm.tables && 1 < t.level && i < 512 && !(t.level == 4 && i == SELF_SLOT)
    ensures vm.tables[t] < |ram|
    ensures WordAt(ram[vm.tables[t]], i) == 0 <==> Child(t, i) !in vm.tables
  {
    assert Placed(vm, t);
    assert WordAt(ram[vm.tables[t]], i) == Expected(vm, t, i);
  }
}
