/**
  What each write to physical memory does to the coupling between memory and the
  abstract virtual memory: one changed word is one changed entry.
 */
module Coupling {
  import opened Addressing
  import opened Hardware
  import opened Memory
  import opened VirtualMemory

  // Memory with one word of one frame replaced.
  function Poke(ram: Ram, f: nat, i: nat, w: nat): Ram
    requires f < |ram| && i < 512
  {
    ram[f := SetWord(ram[f], i, w)]
  }

  lemma PokeWords(ram: Ram, f: nat, i: nat, w: nat, g: nat, j: nat)
    requires f < |ram| && g < |ram| && i < 512 && j < 512 && w < U64
    ensures WordAt(Poke(ram, f, i, w)[g], j) == if f == g && i == j then w else WordAt(ram[g], j)
  {
    if f == g {
      WordAtSetWord(ram[f], i, w, j);
    }
  }

  lemma SmallWord(f: nat)
    requires f < 0x100_0000_0000
    ensures f * 4096 + 7 < U64 && f * 4096 + 5 < U64
  {
  }

  // A child table is reached from one entry only: the kernel's top table, which every
  // space points at, is never added.
  lemma ChildIsUnique(vm: Vm, t: Table, i: nat, u: Table, j: nat)
    requires TablesOk(vm) && t in vm.tables && u in vm.tables && i < 512 && j < 512
    requires 1 < t.level <= 4 && 1 < u.level <= 4
    requires Child(t, i) == Child(u, j) && Child(t, i) != KERNEL_TOP
    ensures t == u && i == j
  {
    assert Placed(vm, t) && Placed(vm, u);
  }

  lemma DataUnderTable(ram: Ram, vm: Vm, f: nat, fr: Frame)
    requires DataCoupled(ram, vm) && f < |ram| && IsTable(vm, f)
    ensures DataCoupled(ram[f := fr], vm)
  {
  }

  // ------------------------------------------------------------------- linking

  // Writing the entry of a new table: the table is there, with unknown words in it.
  lemma LinkCoupled(ram: Ram, vm: Vm, t: Table, i: nat)
    requires Coupled(ram, vm) && t in vm.tables && 1 < t.level <= 4 && i < 512
    requires Child(t, i) !in vm.tables && Placed(vm, Child(t, i)) && !vm.alloc.Exhausted()
    ensures vm.alloc.Valid() && vm.tables[t] < |ram|
    ensures Coupled(Poke(ram, vm.tables[t], i, TableWord(NextFrame(vm))), AddTable(vm, Child(t, i)), {Child(t, i)})
  {
    var u := Child(t, i);
    Taken(vm);
    AddTableWellFormed(vm, u);
    var f := vm.tables[t];
    var v := AddTable(vm, u);
    var w := TableWord(NextFrame(vm));
    var ram2 := Poke(ram, f, i, w);
    assert w < U64 by { SmallWord(NextFrame(vm)); }
    assert v.pages == vm.pages && v.data == vm.data && v.tables == vm.tables[u := NextFrame(vm)];
    assert DataCoupled(ram2, v) by { LinkData(ram, vm, v, t, i, u, w); }
    assert TablesOk(vm) && TablesOk(v);
    hide WellFormed, DataCoupled, AddTable, NextFrame, TableWord;
    assert w == TableWord(NextFrame(vm));
    LinkTables(ram, vm, v, t, i);
  }

  lemma LinkData(ram: Ram, vm: Vm, v: Vm, t: Table, i: nat, u: Table, w: nat)
    requires DataCoupled(ram, vm) && t in vm.tables && i < 512 && vm.tables[t] < |ram|
    requires u !in vm.tables && u in v.tables && v.data == vm.data && v.tables == vm.tables[u := v.tables[u]]
    ensures DataCoupled(Poke(ram, vm.tables[t], i, w), v)
  {
    assert forall f {:trigger IsTable(v, f)} :: IsTable(vm, f) ==> IsTable(v, f) by {
      forall f | IsTable(vm, f)
        ensures IsTable(v, f)
      {
        var x :| x in vm.tables && vm.tables[x] == f;
        assert x in v.tables && v.tables[x] == f;
      }
    }
    assert IsTable(v, vm.tables[t]) by { assert v.tables[t] == vm.tables[t]; }
  }

  lemma LinkTables(ram: Ram, vm: Vm, v: Vm, t: Table, i: nat)
    requires TablesOk(vm) && TablesCoupled(ram, vm, {}) && t in vm.tables && 1 < t.level <= 4 && i < 512
    requires Child(t, i) !in vm.tables && Placed(vm, Child(t, i))
    requires Child(t, i) in v.tables && v.tables == vm.tables[Child(t, i) := v.tables[Child(t, i)]]
    requires v.pages == vm.pages
    requires v.tables[Child(t, i)] < 0x100_0000_0000
    requires vm.tables[t] < |ram|
    ensures TablesCoupled(Poke(ram, vm.tables[t], i, TableWord(v.tables[Child(t, i)])), v, {Child(t, i)})
  {
    var u := Child(t, i);
    var w := TableWord(v.tables[u]);
    var f := vm.tables[t];
    SmallWord(v.tables[u]);
    forall x, j {:trigger Expected(v, x, j)} | x in v.tables && x !in {u} && 1 <= x.level <= 4 && 0 <= j < 512 && v.tables[x] < |ram|
      ensures WordAt(Poke(ram, f, i, w)[v.tables[x]], j) == Expected(v, x, j)
    {
      assert x in vm.tables && v.tables[x] == vm.tables[x];
      assert WordAt(ram[vm.tables[x]], j) == Expected(vm, x, j);
      PokeWords(ram, f, i, w, v.tables[x], j);
      LinkExpected(vm, v, t, i, x, j);
    }
  }

  lemma LinkExpected(vm: Vm, v: Vm, t: Table, i: nat, x: Table, j: nat)
    requires TablesOk(vm) && t in vm.tables && 1 < t.level <= 4 && i < 512
    requires Child(t, i) !in vm.tables && Placed(vm, Child(t, i))
    requires Child(t, i) in v.tables && v.tables == vm.tables[Child(t, i) := v.tables[Child(t, i)]]
    requires v.pages == vm.pages
    requires x in vm.tables && 1 <= x.level <= 4 && j < 512
    ensures Expected(v, x, j) == if x == t && i == j then TableWord(v.tables[Child(t, i)]) else Expected(vm, x, j)
  {
    if x.level > 1 && Child(x, j) == Child(t, i) {
      ChildIsUnique(vm, x, j, t, i);
    }
  }

  // ------------------------------------------------------- filling a new table

  // Whatever is written to a table under construction shows nowhere else.
  lemma FillCoupled(ram: Ram, vm: Vm, u: Table, fr: Frame)
    requires Coupled(ram, vm, {u}) && u in vm.tables
    ensures vm.tables[u] < |ram|
    ensures Coupled(ram[vm.tables[u] := fr], vm, {u})
  {
    var ram2 := ram[vm.tables[u] := fr];
    assert IsTable(vm, vm.tables[u]);
    DataUnderTable(ram, vm, vm.tables[u], fr);
    hide DataCoupled, PoolOk, PagesOk;
    forall x, j {:trigger Expected(vm, x, j)}
      | x in vm.tables && x !in {u} && 1 <= x.level <= 4 && 0 <= j < 512 && vm.tables[x] < |ram2|
      ensures WordAt(ram2[vm.tables[x]], j) == Expected(vm, x, j)
    {
      assert vm.tables[x] != vm.tables[u];
      assert ram2[vm.tables[x]] == ram[vm.tables[x]];
    }
  }

  // Nothing can be below a table that did not exist.
  lemma NothingBelow(vm: Vm, u: Table, j: nat)
    requires WellFormed(vm) && u !in vm.tables && 1 <= u.level < 4 && j < 512
    ensures u.level > 1 ==> Child(u, j) !in vm.tables
    ensures u.level == 1 ==> Page(u.space, u.prefix * 512 + j) !in vm.pages
  {
    if u.level > 1 {
      var c := Child(u, j);
      assert Parent(c) == u;
      assert c in vm.tables ==> Placed(vm, c);
    } else {
      var p := Page(u.space, u.prefix * 512 + j);
      assert PtOf(p) == u;
      assert p in vm.pages ==> PtOf(p) in vm.tables;
    }
  }

  // A new table of zero words is a table without entries.
  lemma FilledCoupled(ram: Ram, vm: Vm, u: Table)
    requires WellFormed(vm) && !vm.alloc.Exhausted() && u !in vm.tables && 1 <= u.level < 4
    requires vm.alloc.Valid() && Coupled(ram, AddTable(vm, u), {u})
    requires NextFrame(vm) < |ram|
    requires forall j :: 0 <= j < 512 ==> WordAt(ram[NextFrame(vm)], j) == 0
    ensures Coupled(ram, AddTable(vm, u))
  {
    var v := AddTable(vm, u);
    assert v.pages == vm.pages && v.tables == vm.tables[u := NextFrame(vm)];
    hide DataCoupled, PoolOk, PagesOk, AddTable;
    forall x, j {:trigger Expected(v, x, j)}
      | x in v.tables && 1 <= x.level <= 4 && 0 <= j < 512 && v.tables[x] < |ram|
      ensures WordAt(ram[v.tables[x]], j) == Expected(v, x, j)
    {
      if x == u {
        NothingBelow(vm, u, j);
        assert u.level > 1 ==> Child(u, j) != u;
      }
    }
  }

  // ------------------------------------------------------------- page entries

  lemma SetPageExpected(vm: Vm, v: Vm, p: Page, x: Table, j: nat)
    requires v.tables == vm.tables && v.pages - {p} == vm.pages - {p}
    requires x in vm.tables && 1 <= x.level <= 4 && j < 512
    requires !(x == PtOf(p) && j == p.number % 512)
    ensures Expected(v, x, j) == Expected(vm, x, j)
  {
    if x.level == 1 {
      var q := Page(x.space, x.prefix * 512 + j);
      assert q != p;
      assert q in v.pages <==> q in v.pages - {p};
      assert q in vm.pages <==> q in vm.pages - {p};
      assert q in v.pages ==> v.pages[q] == (v.pages - {p})[q];
    }
  }

  lemma PokePage(ram: Ram, vm: Vm, v: Vm, p: Page, w: nat)
    requires Coupled(ram, vm) && WellFormed(v) && PtOf(p) in vm.tables && w < U64
    requires v.tables == vm.tables && v.data == vm.data
    requires v.pages - {p} == vm.pages - {p}
    requires w == Expected(v, PtOf(p), p.number % 512)
    ensures vm.tables[PtOf(p)] < |ram|
    ensures Coupled(Poke(ram, vm.tables[PtOf(p)], p.number % 512, w), v)
  {
    var f, i := vm.tables[PtOf(p)], p.number % 512;
    var ram2 := Poke(ram, f, i, w);
    assert DataCoupled(ram2, v) by { PokeData(ram, vm, v, PtOf(p), i, w); }
    hide DataCoupled, PoolOk, PagesOk;
    forall x, j {:trigger Expected(v, x, j)}
      | x in v.tables && 1 <= x.level <= 4 && 0 <= j < 512 && v.tables[x] < |ram2|
      ensures WordAt(ram2[v.tables[x]], j) == Expected(v, x, j)
    {
      PokeWords(ram, f, i, w, v.tables[x], j);
      if !(x == PtOf(p) && j == i) {
        assert WordAt(ram[vm.tables[x]], j) == Expected(vm, x, j);
        SetPageExpected(vm, v, p, x, j);
      }
    }
  }

  lemma PokeData(ram: Ram, vm: Vm, v: Vm, t: Table, i: nat, w: nat)
    requires DataCoupled(ram, vm) && t in vm.tables && i < 512 && vm.tables[t] < |ram|
    requires v.tables == vm.tables && v.data == vm.data
    ensures DataCoupled(Poke(ram, vm.tables[t], i, w), v)
  {
    assert IsTable(vm, vm.tables[t]);
    DataUnderTable(ram, vm, vm.tables[t], SetWord(ram[vm.tables[t]], i, w));
    assert forall f {:trigger IsTable(v, f)} :: IsTable(v, f) <==> IsTable(vm, f);
  }

  lemma PageWordOf(v: Vm, p: Page)
    requires PtOf(p) in v.tables
    ensures Expected(v, PtOf(p), p.number % 512) == if p in v.pages then PageWord(v.pages[p]) else 0
  {
    assert Page(p.space, p.number / 512 * 512 + p.number % 512) == p;
  }

  // The word of a present entry, and of an absent one.
  lemma SetPageCoupled(ram: Ram, vm: Vm, p: Page, e: Pte)
    requires Coupled(ram, vm) && PtOf(p) in vm.tables && Mappable(vm, e.frame)
    ensures vm.tables[PtOf(p)] < |ram|
    ensures Coupled(Poke(ram, vm.tables[PtOf(p)], p.number % 512, PageWord(e)), SetPage(vm, p, e))
  {
    assert e.frame < 0x100_0000_0000;
    hide Coupled, WellFormed, Mappable, PageWord;
    SetPageWellFormed(vm, p, e);
    assert PageWord(e) < U64 by { WordFits(e); }
    var v := SetPage(vm, p, e);
    PageWordOf(v, p);
    PokePage(ram, vm, v, p, PageWord(e));
  }

  lemma WordFits(e: Pte)
    requires e.frame < 0x100_0000_0000
    ensures PageWord(e) < U64
  {
    SmallWord(e.frame);
  }

  lemma ClearPageCoupled(ram: Ram, vm: Vm, p: Page)
    requires Coupled(ram, vm) && PtOf(p) in vm.tables
    requires WellFormed(vm.(pages := vm.pages - {p}))
    ensures vm.tables[PtOf(p)] < |ram|
    ensures Coupled(Poke(ram, vm.tables[PtOf(p)], p.number % 512, 0), vm.(pages := vm.pages - {p}))
  {
    hide Coupled, WellFormed;
    var v := vm.(pages := vm.pages - {p});
    PageWordOf(v, p);
    PokePage(ram, vm, v, p, 0);
  }

  // ---------------------------------------------------- counts and page contents

  lemma AllocCoupled(ram: Ram, vm: Vm, v: Vm)
    requires Coupled(ram, vm) && WellFormed(v) && v == vm.(alloc := v.alloc)
    ensures Coupled(ram, v)
  {
    assert forall t, i {:trigger Expected(v, t, i)} :: t in v.tables && 1 <= t.level <= 4 && 0 <= i < 512 ==>
             Expected(v, t, i) == Expected(vm, t, i);
    assert forall f {:trigger IsTable(v, f)} :: IsTable(v, f) <==> IsTable(vm, f);
  }

  lemma SetDataCoupled(ram: Ram, vm: Vm, f: nat, fr: Frame)
    requires Coupled(ram, vm) && f < |ram| && !IsTable(vm, f)
    ensures Coupled(ram[f := fr], SetData(vm, f, fr))
  {
    var v := SetData(vm, f, fr);
    SetDataWellFormed(vm, f, fr);
    assert forall t, i {:trigger Expected(v, t, i)} :: t in v.tables && 1 <= t.level <= 4 && 0 <= i < 512 ==>
             Expected(v, t, i) == Expected(vm, t, i) && v.tables[t] != f;
    assert forall g {:trigger IsTable(v, g)} :: IsTable(v, g) <==> IsTable(vm, g);
  }

  // ------------------------------------------------------------- a picture exists

  lemma ExpectedFits(vm: Vm, t: Table, i: nat)
    requires WellFormed(vm) && t in vm.tables && 1 <= t.level <= 4 && i < 512
    ensures Expected(vm, t, i) < U64
  {
    hide PoolOk, FreeFrame;
    assert |vm.data| <= 0x100_0000_0000 by { PoolBound(vm); }
    PagesInData(vm);
  }

  lemma PoolBound(vm: Vm)
    requires PoolOk(vm)
    ensures vm.base + |vm.alloc.refs| <= |vm.data| <= 0x100_0000_0000
  {
  }

  lemma PagesInData(vm: Vm)
    requires WellFormed(vm)
    ensures forall p {:trigger vm.pages[p]} :: p in vm.pages ==> vm.pages[p].frame < |vm.data|
  {
  }

  // The first `k` words of a frame, as the table should have them.
  ghost function Filled(fr: Frame, vm: Vm, t: Table, k: nat): Frame
    requires t in vm.tables && 1 <= t.level <= 4 && k <= 512
    decreases k
  {
    if k == 0 then fr else SetWord(Filled(fr, vm, t, k - 1), k - 1, Expected(vm, t, k - 1))
  }

  lemma {:induction false} FilledWords(fr: Frame, vm: Vm, t: Table, k: nat, i: nat)
    requires WellFormed(vm) && t in vm.tables && 1 <= t.level <= 4 && i < k <= 512
    ensures WordAt(Filled(fr, vm, t, k), i) == Expected(vm, t, i)
    decreases k
  {
    hide WellFormed, Expected, WordAt, SetWord;
    ExpectedFits(vm, t, k - 1);
    WordAtSetWord(Filled(fr, vm, t, k - 1), k - 1, Expected(vm, t, k - 1), i);
    if i < k - 1 {
      FilledWords(fr, vm, t, k - 1, i);
    }
  }

  ghost function ShownFrame(vm: Vm, f: nat): Frame
    requires WellFormed(vm) && f < |vm.data|
  {
    if IsTable(vm, f) then
      var t :| t in vm.tables && vm.tables[t] == f;
      assert Placed(vm, t);
      Filled(vm.data[f], vm, t, 512)
    else vm.data[f]
  }

  ghost function Picture(vm: Vm): Ram
    requires WellFormed(vm)
  {
    seq(|vm.data|, f requires 0 <= f < |vm.data| => ShownFrame(vm, f))
  }

  lemma ShownTable(vm: Vm, t: Table, i: nat)
    requires WellFormed(vm) && t in vm.tables && i < 512
    ensures 1 <= t.level <= 4 && vm.tables[t] < |vm.data|
    ensures WordAt(ShownFrame(vm, vm.tables[t]), i) == Expected(vm, t, i)
  {
    var f := vm.tables[t];
    assert Placed(vm, t) && IsTable(vm, f);
    FilledWords(vm.data[f], vm, t, 512, i);
    hide PoolOk, PagesOk, Placed, WordAt, Filled, Expected;
  }

  // Every well-formed abstract memory is shown by some physical memory.
  lemma PictureCoupled(vm: Vm)
    requires WellFormed(vm)
    ensures Coupled(Picture(vm), vm)
  {
    var ram := Picture(vm);
    hide WellFormed, ShownFrame;
    forall t, i {:trigger Expected(vm, t, i)} | t in vm.tables && 1 <= t.level <= 4 && 0 <= i < 512 && vm.tables[t] < |ram|
      ensures WordAt(ram[vm.tables[t]], i) == Expected(vm, t, i)
    {
      ShownTable(vm, t, i);
    }
    forall f | 0 <= f < |ram| && !IsTable(vm, f)
      ensures ram[f] == vm.data[f]
    {
      ShownPage(vm, f);
    }
  }

  lemma ShownPage(vm: Vm, f: nat)
    requires WellFormed(vm) && f < |vm.data| && !IsTable(vm, f)
    ensures ShownFrame(vm, f) == vm.data[f]
  {
  }
}
