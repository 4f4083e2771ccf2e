/**
  The processor's view: the four-level walk over physical memory (Intel SDM volume 3A,
  section 4.5), and the coupling that makes memory a picture of a virtual memory.
 */
module Hardware {
  import opened Addressing
  import opened Memory
  import opened VirtualMemory
  import opened Wrappers

  type Ram = seq<Frame>

  // Where an entry or a walk leads, and with which rights.
  datatype Hit = Hit(frame: nat, writable: bool, user: bool)

  // One entry: bit 0 present, bit 1 writable, bit 2 user, bits 51:12 the frame.
  function Decode(w: nat, frames: nat): Option<Hit> {
    if w % 2 == 0 then None
    else
      var f := w / 4096 % 0x100_0000_0000;
      if f < frames then Some(Hit(f, w / 2 % 2 == 1, w / 4 % 2 == 1)) else None
  }

  function Hop(ram: Ram, f: nat, i: nat): Option<Hit>
    requires f < |ram| && i < 512
  {
    Decode(WordAt(ram[f], i), |ram|)
  }

  // The rest of a walk after a first entry.
  function Then(first: Hit, rest: Option<Hit>): Option<Hit> {
    if rest.None? then None
    else Some(Hit(rest.value.frame, first.writable && rest.value.writable, first.user && rest.value.user))
  }

  function Walk1(ram: Ram, f: nat, d: nat): Option<Hit>
    requires f < |ram| && d < 512
  {
    Hop(ram, f, d)
  }

  function Walk2(ram: Ram, f: nat, c: nat, d: nat): Option<Hit>
    requires f < |ram| && c < 512 && d < 512
  {
    var e := Hop(ram, f, c);
    if e.None? then None else Then(e.value, Walk1(ram, e.value.frame, d))
  }

  function Walk3(ram: Ram, f: nat, b: nat, c: nat, d: nat): Option<Hit>
    requires f < |ram| && b < 512 && c < 512 && d < 512
  {
    var e := Hop(ram, f, b);
    if e.None? then None else Then(e.value, Walk2(ram, e.value.frame, c, d))
  }

  function Walk(ram: Ram, f: nat, a: nat, b: nat, c: nat, d: nat): (r: Option<Hit>)
    requires f < |ram| && a < 512 && b < 512 && c < 512 && d < 512
    ensures r.Some? ==> r.value.frame < |ram|
  {
    var e := Hop(ram, f, a);
    if e.None? then None else Then(e.value, Walk3(ram, e.value.frame, b, c, d))
  }

  function Translate(ram: Ram, root: nat, va: nat): (r: Option<Hit>)
    requires root < |ram|
    ensures r.Some? ==> r.value.frame < |ram|
  {
    if !Canonical(va) then None
    else Walk(ram, root, HwPml4(va), HwPdpt(va), HwPd(va), HwPt(va))
  }

  // ------------------------------------------------------------------ coupling

  // The words the kernel writes: frame address or 7, frame address or 5.
  function TableWord(f: nat): nat { f * 4096 + 7 }
  function PageWord(e: Pte): nat { e.frame * 4096 + (if e.writable then 7 else 5) }

  function Expected(vm: Vm, t: Table, i: nat): nat
    requires 1 <= t.level <= 4 && t in vm.tables
  {
    if t.level == 1 then
      var p := Page(t.space, t.prefix * 512 + i);
      if p in vm.pages then PageWord(vm.pages[p]) else 0
    else if t.level == 4 && i == SELF_SLOT then TableWord(vm.tables[t])
    else
      var u := Child(t, i);
      if u in vm.tables then TableWord(vm.tables[u]) else 0
  }

  // Every table but those in `raw` shows what the page map says.
  ghost predicate TablesCoupled(ram: Ram, vm: Vm, raw: set<Table>) {
    forall t, i {:trigger Expected(vm, t, i)} ::
      t in vm.tables && t !in raw && 1 <= t.level <= 4 && 0 <= i < 512 && vm.tables[t] < |ram| ==>
        WordAt(ram[vm.tables[t]], i) == Expected(vm, t, i)
  }

  ghost predicate DataCoupled(ram: Ram, vm: Vm) {
    && |ram| == |vm.data|
    && (forall f {:trigger ram[f]} :: 0 <= f < |ram| && !IsTable(vm, f) ==> ram[f] == vm.data[f])
  }

  ghost predicate Coupled(ram: Ram, vm: Vm, raw: set<Table> := {}) {
    WellFormed(vm) && TablesCoupled(ram, vm, raw) && DataCoupled(ram, vm)
  }

  // --------------------------------------------------------------------- walks

  lemma DecodeWords(f: nat, frames: nat)
    requires f < frames <= 0x100_0000_0000
    ensures Decode(f * 4096 + 7, frames) == Some(Hit(f, true, true))
    ensures Decode(f * 4096 + 5, frames) == Some(Hit(f, false, true))
    ensures Decode(0, frames) == None
  {
  }

  lemma HopTable(ram: Ram, vm: Vm, raw: set<Table>, t: Table, i: nat)
    requires Coupled(ram, vm, raw) && t !in raw && t in vm.tables && t.level > 1 && i < 512
    requires !(t.level == 4 && i == SELF_SLOT)
    ensures 1 <= t.level <= 4 && vm.tables[t] < |ram|
    ensures var u := Child(t, i);
            Hop(ram, vm.tables[t], i) == if u in vm.tables then Some(Hit(vm.tables[u], true, true)) else None
  {
    assert Placed(vm, t);
    assert WordAt(ram[vm.tables[t]], i) == Expected(vm, t, i);
    var u := Child(t, i);
    if u in vm.tables {
      DecodeWords(vm.tables[u], |ram|);
    }
  }

  lemma HopSelf(ram: Ram, vm: Vm, raw: set<Table>, t: Table)
    requires Coupled(ram, vm, raw) && t !in raw && t in vm.tables && t.level == 4
    ensures vm.tables[t] < |ram|
    ensures Hop(ram, vm.tables[t], SELF_SLOT) == Some(Hit(vm.tables[t], true, true))
  {
    assert WordAt(ram[vm.tables[t]], SELF_SLOT) == Expected(vm, t, SELF_SLOT);
    DecodeWords(vm.tables[t], |ram|);
  }

  lemma CoupledInRam(ram: Ram, vm: Vm, t: Table)
    requires Coupled(ram, vm) && t in vm.tables
    ensures vm.tables[t] < |ram|
  {
  }

  // From a table above level 1 every entry leads to a table at most one level below.
  lemma HopOn(ram: Ram, vm: Vm, t: Table, i: nat) returns (u: Table)
    requires Coupled(ram, vm) && t in vm.tables && t.level > 1 && i < 512
    requires vm.tables[t] < |ram| && Hop(ram, vm.tables[t], i).Some?
    ensures u in vm.tables && u.level >= t.level - 1 && vm.tables[u] < |ram|
    ensures Hop(ram, vm.tables[t], i) == Some(Hit(vm.tables[u], true, true))
  {
    hide TablesCoupled, DataCoupled, WellFormed, Hop;
    if t.level == 4 && i == SELF_SLOT {
      HopSelf(ram, vm, {}, t);
      u := t;
    } else {
      HopTable(ram, vm, {}, t, i);
      u := Child(t, i);
      CoupledInRam(ram, vm, u);
    }
  }

  lemma HopPage(ram: Ram, vm: Vm, t: Table, i: nat)
    requires Coupled(ram, vm) && t in vm.tables && t.level == 1 && i < 512
    ensures vm.tables[t] < |ram|
    ensures var p := Page(t.space, t.prefix * 512 + i);
            Hop(ram, vm.tables[t], i)
              == if p in vm.pages then Some(Hit(vm.pages[p].frame, vm.pages[p].writable, true)) else None
  {
    assert WordAt(ram[vm.tables[t]], i) == Expected(vm, t, i);
    var p := Page(t.space, t.prefix * 512 + i);
    if p in vm.pages {
      DecodeWords(vm.pages[p].frame, |ram|);
    }
  }

  function AsHit(e: Option<Pte>): Option<Hit> {
    if e.None? then None else Some(Hit(e.value.frame, e.value.writable, true))
  }

  // The hardware walk is a lookup in the abstract page map, for every address that does
  // not go through the self entry.
  lemma WalkIsLookup(ram: Ram, vm: Vm, space: nat, a: nat, b: nat, c: nat, d: nat)
    requires Coupled(ram, vm) && Top(space) in vm.tables
    requires a < 512 && b < 512 && c < 512 && d < 512 && a != SELF_SLOT
    ensures vm.tables[Top(space)] < |ram|
    ensures Walk(ram, vm.tables[Top(space)], a, b, c, d) == AsHit(Entry(vm, PageIn(space, Fields(a, b, c, d))))
  {
    hide Hop, TablesCoupled, DataCoupled, PoolOk;
    var n := Fields(a, b, c, d);
    FieldPrefixes(a, b, c, d);
    var top, t3, t2, t1 := Top(space), Pdpt(space, n), Pd(space, n), Pt(space, n);
    assert PtOf(PageIn(space, n)) == t1;
    assert t1 in vm.tables ==> Placed(vm, t1) && t2 in vm.tables;
    assert t2 in vm.tables ==> Placed(vm, t2) && t3 in vm.tables;
    HopTable(ram, vm, {}, top, a);
    if t3 in vm.tables {
      HopTable(ram, vm, {}, t3, b);
      if t2 in vm.tables {
        HopTable(ram, vm, {}, t2, c);
        if t1 in vm.tables {
          HopPage(ram, vm, t1, d);
        }
      }
    }
  }

  lemma FieldPrefixes(a: nat, b: nat, c: nat, d: nat)
    requires a < 512 && b < 512 && c < 512 && d < 512
    ensures var n := Fields(a, b, c, d);
            && n / 512 == (a * 512 + b) * 512 + c
            && n / 512 / 512 == a * 512 + b
            && n / 512 / 512 / 512 == a
  {
  }

  // A walk that starts at the self entry never gets to a page: whatever the other three
  // indices are, it ends on a table, which user mode may read and write.
  lemma SelfWalk(ram: Ram, vm: Vm, space: nat, b: nat, c: nat, d: nat)
    requires Coupled(ram, vm) && Top(space) in vm.tables && b < 512 && c < 512 && d < 512
    ensures vm.tables[Top(space)] < |ram|
    ensures var hit := Walk(ram, vm.tables[Top(space)], SELF_SLOT, b, c, d);
            hit.Some? ==> hit.value.writable && hit.value.user && IsTable(vm, hit.value.frame)
  {
    hide TablesCoupled, DataCoupled, WellFormed, Hop;
    var top := Top(space);
    HopSelf(ram, vm, {}, top);
    if Walk(ram, vm.tables[top], SELF_SLOT, b, c, d).Some? {
      var t3 := HopOn(ram, vm, top, b);
      var t2 := HopOn(ram, vm, t3, c);
      var t1 := HopOn(ram, vm, t2, d);
      assert vm.tables[t1] == Walk(ram, vm.tables[top], SELF_SLOT, b, c, d).value.frame;
    }
  }

  // ------------------------------------------------- tables seen through entry 510

  // The table of a level on the way to page `n`, and the address the kernel computes
  // for it.
  function TableAt(space: nat, n: nat, level: nat): Table {
    if level == 1 then Pt(space, n) else if level == 2 then Pd(space, n)
    else if level == 3 then Pdpt(space, n) else Top(space)
  }

  // The four indices that make a walk stop on that table.
  function Stops(n: nat, level: nat): (s: (nat, nat, nat, nat))
    requires n / 512 / 512 / 512 < 512
    ensures s.0 == SELF_SLOT && s.1 < 512 && s.2 < 512 && s.3 < 512
  {
    var a, b, c := n / 512 / 512 / 512, n / 512 / 512 % 512, n / 512 % 512;
    if level == 1 then (SELF_SLOT, a, b, c)
    else if level == 2 then (SELF_SLOT, SELF_SLOT, a, b)
    else if level == 3 then (SELF_SLOT, SELF_SLOT, SELF_SLOT, a)
    else (SELF_SLOT, SELF_SLOT, SELF_SLOT, SELF_SLOT)
  }

  function TableAddress(n: nat, level: nat): nat
    requires n / 512 / 512 / 512 < 512
  {
    var s := Stops(n, level);
    Chain(BASE, s.0, s.1, s.2, s.3)
  }

  // The tables above `level` on the way to page `n` exist and show what they should.
  ghost predicate PathShown(vm: Vm, raw: set<Table>, space: nat, n: nat, level: nat) {
    && Top(space) in vm.tables && Top(space) !in raw
    && forall l {:trigger TableAt(space, n, l)} :: level <= l <= 3 ==>
         TableAt(space, n, l) in vm.tables && (l > level ==> TableAt(space, n, l) !in raw)
  }

  // Word `j` of the table: the walk from the top-level table ends on the table itself.
  lemma ReachTable(ram: Ram, vm: Vm, raw: set<Table>, space: nat, n: nat, level: nat, j: nat)
    requires Coupled(ram, vm, raw) && Reachable(vm, space, n) && 1 <= level <= 4 && j < 512
    requires PathShown(vm, raw, space, n, level)
    ensures vm.tables[Top(space)] < |ram| && TableAt(space, n, level) in vm.tables
    ensures var va := TableAddress(n, level) + 8 * j;
            && Translate(ram, vm.tables[Top(space)], va)
                 == Some(Hit(vm.tables[TableAt(space, n, level)], true, true))
            && OffsetOf(va) % 8 == 0 && OffsetOf(va) / 8 == j
  {
    ReachWalk(ram, vm, raw, space, n, level);
    hide *;
    TranslateStops(ram, vm.tables[Top(space)], n, level, j);
  }

  // The address computed for a table is canonical and has the indices of its stop.
  lemma TranslateStops(ram: Ram, root: nat, n: nat, level: nat, j: nat)
    requires n / 512 / 512 / 512 < 512 && j < 512 && root < |ram|
    ensures var s := Stops(n, level); var va := TableAddress(n, level) + 8 * j;
            Translate(ram, root, va) == Walk(ram, root, s.0, s.1, s.2, s.3)
            && OffsetOf(va) % 8 == 0 && OffsetOf(va) / 8 == j
  {
    hide Walk, Stops, Chain, Canonical, HwPml4, HwPdpt, HwPd, HwPt, OffsetOf;
    var s := Stops(n, level);
    ChainIndices(BASE, s.0, s.1, s.2, s.3, j);
  }

  lemma ReachWalk(ram: Ram, vm: Vm, raw: set<Table>, space: nat, n: nat, level: nat)
    requires Coupled(ram, vm, raw) && Reachable(vm, space, n) && 1 <= level <= 4
    requires PathShown(vm, raw, space, n, level)
    ensures vm.tables[Top(space)] < |ram| && TableAt(space, n, level) in vm.tables
    ensures var s := Stops(n, level);
            Walk(ram, vm.tables[Top(space)], s.0, s.1, s.2, s.3)
              == Some(Hit(vm.tables[TableAt(space, n, level)], true, true))
  {
    hide Hop, TablesCoupled, DataCoupled, PoolOk, PagesOk;
    var a, b, c := n / 512 / 512 / 512, n / 512 / 512 % 512, n / 512 % 512;
    var top := Top(space);
    HopSelf(ram, vm, raw, top);
    assert TableAt(space, n, level) in vm.tables;
    if level <= 3 {
      assert TableAt(space, n, 3) in vm.tables;
      HopTable(ram, vm, raw, top, a);
    }
    if level <= 2 {
      assert TableAt(space, n, 2) in vm.tables && TableAt(space, n, 3) !in raw;
      HopTable(ram, vm, raw, Pdpt(space, n), b);
    }
    if level <= 1 {
      assert TableAt(space, n, 2) !in raw;
      HopTable(ram, vm, raw, Pd(space, n), c);
    }
  }
}
