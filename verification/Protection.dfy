/**
  How far the page tables themselves protect a process.  Every entry that map_phyaddr, set_Cow
  and mappageTable write is a user entry, so user mode reaches page tables through entry 510
  and kernel pages through entry 511.  A store away from these two entries stays with the
  process and its descendants; through entry 511 it reaches what all processes share; and
  only a store into a page table can take away what another process has.
 */
module Protection {
  import opened Addressing
  import opened Coupling
  import opened Hardware
  import opened Isolation
  import opened Memory
  import opened Paging
  import opened Runs
  import opened Spaces
  import opened TaskMemory
  import opened VirtualMemory
  import opened Wrappers

  // Frame `f` is no table, and only `space` and its descendants show it.
  ghost predicate Confined(vm: Vm, parents: map<nat, nat>, space: nat, f: nat) {
    && !IsTable(vm, f)
    && (forall p {:trigger vm.pages[p]} :: p in vm.pages && vm.pages[p].frame == f ==>
          p.space == space || Ancestor(parents, space, p.space))
  }

  // A store that the walk grants is confined exactly when it goes neither through entry 510
  // nor through entry 511.
  lemma ConfinedIff(ram: Ram, vm: Vm, parents: map<nat, nat>, space: nat, a: nat)
    requires Coupled(ram, vm) && Owned(vm, parents) && Top(space) in vm.tables
    requires vm.tables[Top(space)] < |ram| && Grants(Translate(ram, vm.tables[Top(space)], a), true)
    ensures var f := Translate(ram, vm.tables[Top(space)], a).value.frame;
            Confined(vm, parents, space, f) <==> HwPml4(a) != SELF_SLOT && HwPml4(a) != KERNEL_SLOT
  {
    hide Coupled, Owned, Translate, Ancestor, HwPml4, Canonical, PageOf, IsTable, Confined, Permitted, Private;
    PrivateIff(a);
    UserSpace(ram, vm, space);
    GrantsIsPermitted(ram, vm, space, a, true);
    var f := Translate(ram, vm.tables[Top(space)], a).value.frame;
    if Private(a) {
      PrivateConfined(ram, vm, parents, space, a);
    } else if HwPml4(a) == KERNEL_SLOT {
      KernelShown(vm, parents, space, Page(KERNEL, PageOf(a)));
    } else {
      assert IsTable(vm, f);
      assert !Confined(vm, parents, space, f) by { TableNotConfined(vm, parents, space, f); }
    }
  }

  lemma TableNotConfined(vm: Vm, parents: map<nat, nat>, space: nat, f: nat)
    requires IsTable(vm, f)
    ensures !Confined(vm, parents, space, f)
  {
  }

  lemma KernelShown(vm: Vm, parents: map<nat, nat>, space: nat, p: Page)
    requires p in vm.pages && p.space == KERNEL && space != KERNEL
    ensures !Confined(vm, parents, space, vm.pages[p].frame)
  {
    hide IsTable;
    assert !Ancestor(parents, space, KERNEL);
  }

  lemma PrivateConfined(ram: Ram, vm: Vm, parents: map<nat, nat>, space: nat, a: nat)
    requires Coupled(ram, vm) && Owned(vm, parents) && space != KERNEL && Permitted(vm, space, a, true)
    ensures Confined(vm, parents, space, vm.pages[UserPage(space, a)].frame)
  {
    UserFrame(ram, vm, UserPage(space, a));
    hide Coupled, Ancestor, PageOf, Private, IsTable;
    var p := UserPage(space, a);
    forall q {:trigger vm.pages[q]} | q in vm.pages && vm.pages[q].frame == vm.pages[p].frame && q != p
      ensures Ancestor(parents, space, q.space)
    {
      assert q.space != KERNEL && Shared(vm, parents, p, q);
    }
  }

  // The stores the walk grants are the stores of the runs, but for those into page tables:
  // through entry 510, or through a kernel page that shows a top-level table.
  lemma StoreIsEvent(s: Sys, l: Layout, ram: Ram, a: nat, b: Byte)
    requires Inv(s, l) && Running(s) && Coupled(ram, s.vm)
    ensures Top(s.active) in s.vm.tables && s.vm.tables[Top(s.active)] < |ram|
    ensures var hit := Translate(ram, s.vm.tables[Top(s.active)], a);
            Grants(hit, true) ==>
              (Enabled(s, l, Store(a, b)) || Enabled(s, l, KernelStore(a, b)) <==> !IsTable(s.vm, hit.value.frame))
  {
    ActiveInUse(s, l);
    hide Coupled, Inv, Translate, HwPml4, Canonical, PageOf, IsTable, Private, Upper, Layout.IsAlias, WellFormed, Grants, Enabled;
    PrivateIff(a);
    UpperIff(a);
    GrantsIsPermitted(ram, s.vm, s.active, a, true);
    if Private(a) {
      OwnEvent(s, l, ram, a, b);
    } else {
      UpperEvent(s, l, a, b);
    }
  }

  lemma OwnEvent(s: Sys, l: Layout, ram: Ram, a: nat, b: Byte)
    requires Inv(s, l) && Running(s) && Coupled(ram, s.vm) && Private(a)
    ensures Enabled(s, l, Store(a, b)) && s.active != KERNEL
    ensures Permitted(s.vm, s.active, a, true) ==> !IsTable(s.vm, s.vm.pages[UserPage(s.active, a)].frame)
  {
    ActiveInUse(s, l);
    hide Coupled, Inv, PageOf, Private, IsTable;
    if Permitted(s.vm, s.active, a, true) {
      UserFrame(ram, s.vm, UserPage(s.active, a));
    }
  }

  lemma UpperEvent(s: Sys, l: Layout, a: nat, b: Byte)
    requires Inv(s, l) && !Private(a)
    ensures !Enabled(s, l, Store(a, b))
    ensures KernelPage(a) in s.vm.pages && s.vm.pages[KernelPage(a)].writable ==>
      (Enabled(s, l, KernelStore(a, b)) <==> Upper(a) && !IsTable(s.vm, s.vm.pages[KernelPage(a)].frame))
    ensures !Upper(a) ==> !Enabled(s, l, KernelStore(a, b))
  {
    hide Inv, PageOf, IsTable, Private, Upper, Layout.IsAlias;
    if KernelPage(a) in s.vm.pages {
      TableIsAlias(s, l, PageOf(a));
    }
  }

  // The kernel pages that show tables are the aliases.
  lemma TableIsAlias(s: Sys, l: Layout, n: nat)
    requires Inv(s, l) && Page(KERNEL, n) in s.vm.pages
    ensures IsTable(s.vm, s.vm.pages[Page(KERNEL, n)].frame) <==> l.IsAlias(n)
  {
    hide Counted, Owned, TasksOk, PoolOk, PagesOk, TablesOk, FreeFrame;
    var f := s.vm.pages[Page(KERNEL, n)].frame;
    if l.IsAlias(n) {
      var i :| 0 <= i < l.slots && l.Alias(i) == n;
      assert s.vm.tables[Top(s.owner[i])] == f;
    }
    if IsTable(s.vm, f) {
      var pid := TopShown(s.vm, Page(KERNEL, n));
    }
  }

  lemma TopShown(vm: Vm, p: Page) returns (pid: nat)
    requires WellFormed(vm) && p in vm.pages && IsTable(vm, vm.pages[p].frame)
    ensures Top(pid) in vm.tables && vm.tables[Top(pid)] == vm.pages[p].frame
  {
    hide PoolOk;
    var t :| t in vm.tables && vm.tables[t] == vm.pages[p].frame;
    assert Placed(vm, t) && t.level == 4;
    pid := t.space;
  }

  // What the processor does on such a store through entry 511 is what the run says.
  lemma KernelStoreSeen(s: Sys, l: Layout, ram: Ram, a: nat, b: Byte)
    requires Inv(s, l) && Running(s) && Coupled(ram, s.vm) && Enabled(s, l, KernelStore(a, b))
    ensures Top(s.active) in s.vm.tables && s.vm.tables[Top(s.active)] < |ram|
    ensures var hit := Translate(ram, s.vm.tables[Top(s.active)], a);
            && Grants(hit, true) && hit.value.frame < |ram|
            && var f := hit.value.frame;
               Coupled(ram[f := ram[f][OffsetOf(a) := b]], KernelStored(s.vm, a, b))
  {
    ActiveInUse(s, l);
    UpperEvent(s, l, a, b) by {
      PrivateIff(a);
      UpperIff(a);
    }
    hide Inv, Translate, PageOf, OffsetOf, IsTable, Upper, Layout.IsAlias, WellFormed, Coupled, KernelStored;
    SharedByte(ram, s.vm, s.active, a, b);
    GrantsIsPermitted(ram, s.vm, s.active, a, true);
    UpperIff(a);
  }

  // What an access through entry 511 does to memory that shows something.
  lemma SharedByte(ram: Ram, vm: Vm, space: nat, a: nat, b: Byte)
    requires Coupled(ram, vm) && Top(space) in vm.tables && Upper(a) && KernelPage(a) in vm.pages
    requires !IsTable(vm, vm.pages[KernelPage(a)].frame)
    ensures WellFormed(vm) && vm.tables[Top(space)] < |ram|
    ensures var hit := Translate(ram, vm.tables[Top(space)], a);
            && hit.Some? && hit.value.frame == vm.pages[KernelPage(a)].frame < |ram|
            && var f := hit.value.frame;
               Coupled(ram[f := ram[f][OffsetOf(a) := b]], KernelStored(vm, a, b))
  {
    UserSpace(ram, vm, space);
    UpperIff(a);
    GrantsIsPermitted(ram, vm, space, a, false);
    FramesInData(vm);
    hide Translate, HwPml4, Canonical, PageOf, OffsetOf, IsTable, Private, Upper, WellFormed, Coupled;
    var f := vm.pages[KernelPage(a)].frame;
    PlainFrame(ram, vm, f);
    SetDataCoupled(ram, vm, f, vm.data[f][OffsetOf(a) := b]);
  }

  lemma PlainFrame(ram: Ram, vm: Vm, f: nat)
    requires Coupled(ram, vm) && f < |vm.data| && !IsTable(vm, f)
    ensures f < |ram| && ram[f] == vm.data[f]
  {
    hide TablesCoupled, WellFormed;
  }

  // The address at which every process finds its own top-level table.
  lemma OwnTableGranted(ram: Ram, vm: Vm, space: nat, j: nat)
    requires Coupled(ram, vm) && Top(space) in vm.tables && j < 512
    ensures vm.tables[Top(space)] < |ram|
    ensures var hit := Translate(ram, vm.tables[Top(space)], TableAddress(0, 4) + 8 * j);
            Grants(hit, true) && hit.value.frame == vm.tables[Top(space)]
  {
    hide Coupled, Translate, TableAddress, OffsetOf;
    PrivateAddress(ram, vm, space, 0) by { LowPrivate(0); }
    ReachTable(ram, vm, {}, space, 0, 4, j);
  }

  // The kernel page at which the top-level table of slot `i` is filled in stays mapped, for
  // everybody: any process may write the table of the last owner of the slot there.
  lemma AliasGranted(s: Sys, l: Layout, ram: Ram, space: nat, i: nat, a: nat)
    requires Inv(s, l) && Coupled(ram, s.vm) && Top(space) in s.vm.tables && i < l.slots
    requires Canonical(a) && PageOf(a) == l.Alias(i)
    requires Page(KERNEL, l.Alias(i)) in s.vm.pages && s.vm.pages[Page(KERNEL, l.Alias(i))].writable
    ensures i in s.owner && Top(s.owner[i]) in s.vm.tables && s.vm.tables[Top(space)] < |ram|
    ensures var hit := Translate(ram, s.vm.tables[Top(space)], a);
            Grants(hit, true) && hit.value.frame == s.vm.tables[Top(s.owner[i])]
  {
    hide Coupled, WellFormed, Counted, Owned, TasksOk, Translate, Canonical, PageOf, HwPml4, IsTable;
    PageFields(a);
    GrantsIsPermitted(ram, s.vm, space, a, true);
  }

  // A zero byte there takes away what the owner of the slot saw: its walk finds nothing at
  // any address below the entry written.
  lemma AliasBreaks(s: Sys, l: Layout, ram: Ram, space: nat, i: nat, a: nat, x: nat)
    requires Inv(s, l) && Coupled(ram, s.vm) && Top(space) in s.vm.tables && i < l.slots
    requires Canonical(a) && PageOf(a) == l.Alias(i) && OffsetOf(a) == 8 * HwPml4(x)
    requires Page(KERNEL, l.Alias(i)) in s.vm.pages && s.vm.pages[Page(KERNEL, l.Alias(i))].writable
    ensures i in s.owner && Top(s.owner[i]) in s.vm.tables && s.vm.tables[Top(space)] < |ram|
    ensures var hit := Translate(ram, s.vm.tables[Top(space)], a);
            && Grants(hit, true)
            && var f := hit.value.frame;
            && f == s.vm.tables[Top(s.owner[i])]
            && Translate(ram[f := ram[f][OffsetOf(a) := 0]], f, x) == None
  {
    AliasGranted(s, l, ram, space, i, a);
    hide Coupled, Inv, Canonical, PageOf, HwPml4, OffsetOf, Translate;
    var f := Translate(ram, s.vm.tables[Top(space)], a).value.frame;
    NothingThere(ram, f, HwPml4(x), x);
  }

  lemma NothingThere(ram: Ram, f: nat, k: nat, x: nat)
    requires f < |ram| && k == HwPml4(x)
    ensures Translate(ram[f := ram[f][8 * k := 0]], f, x) == None
  {
    hide Canonical, HwPml4;
    EvenWord(ram[f][8 * k := 0], k);
  }

  lemma EvenWord(fr: Frame, k: nat)
    requires k < 512 && fr[8 * k] == 0
    ensures WordAt(fr, k) % 2 == 0
  {
  }
}
