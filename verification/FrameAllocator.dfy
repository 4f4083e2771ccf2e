/**
  The physical frame allocator of sys/phy_mem_manager.c: a free list threaded through
  an array by block number, with 0 as the end mark, and a reference count per block.
 */
module FrameAllocator {
  import opened Wrappers

  // What the allocator is seen as: the free blocks, next to be handed out first, and
  // the reference counts.
  datatype Frames = Frames(free: seq<int>, refs: seq<int>) {

    predicate Valid() {
      && (forall i :: 0 <= i < |free| ==> 0 < free[i] < |refs|)
      && (forall i, j :: 0 <= i < j < |free| ==> free[i] != free[j])
    }

    // The handler of an exhausted memory never returns: sys/error.c loops for ever.
    predicate Exhausted() {
      |free| < 6
    }

    function Take(): Frames
      requires Valid() && !Exhausted()
    {
      Frames(free[1..], refs[free[0] := refs[free[0]] + 1])
    }

    function Give(b: int): Frames {
      Frames([b] + free, refs)
    }

    function Inc(b: int): Frames
      requires 0 <= b < |refs|
    {
      Frames(free, refs[b := refs[b] + 1])
    }

    function Dec(b: int): Frames
      requires 0 <= b < |refs|
    {
      if refs[b] < 1 then this else Frames(free, refs[b := refs[b] - 1])
    }
  }

  // A block that was handed out is new, and handing it back restores the free list.
  lemma TakeGive(a: Frames)
    requires a.Valid() && !a.Exhausted()
    ensures var b := a.free[0]; var t := a.Take();
            && t.Valid()
            && b !in t.free
            && t.Give(b).Valid()
            && t.Give(b).free == a.free
            && t.Give(b).Dec(b).refs == (if a.refs[b] >= 0 then a.refs else t.refs)
  {
    var b := a.free[0];
    assert a.free == [b] + a.free[1..];
    assert a.refs[b := a.refs[b] + 1][b := a.refs[b]] == a.refs;
  }

  // The free list without the block taken from it.
  lemma TakeRest(a: Frames)
    requires a.Valid() && !a.Exhausted()
    ensures a.Take().Valid()
    ensures a.free[0] in a.free && 0 < a.free[0] < |a.refs|
    ensures forall b {:trigger b in a.Take().free} :: b in a.Take().free ==> b in a.free && b != a.free[0]
    ensures a.Take().refs == a.refs[a.free[0] := a.refs[a.free[0]] + 1]
  {
    var t := a.Take();
    forall b | b in t.free
      ensures b in a.free && b != a.free[0]
    {
      var i :| 0 <= i < |t.free| && t.free[i] == b;
      assert a.free[i + 1] == b;
    }
  }

  lemma GiveValid(a: Frames, b: int)
    requires a.Valid() && 0 < b < |a.refs| && b !in a.free
    ensures a.Give(b).Valid()
  {
  }

  // -------------------------------------------------------------- block numbers

  // The page number of an address less the page number where the free memory starts.
  function BlockIndex(paddr: nat, freeMemory: nat): int {
    paddr / 4096 * 4096 / 4096 - freeMemory / 4096 * 4096 / 4096
  }

  // Address to block inverts block to address, whatever flags sit in the low bits.
  lemma BlockOfAddress(freeMemory: nat, block: nat, flags: nat)
    requires freeMemory % 4096 == 0 && flags < 4096
    ensures BlockIndex(freeMemory + block * 4096 + flags, freeMemory) == block
  {
    assert freeMemory == freeMemory / 4096 * 4096;
  }

  // Following `next` from `head` meets the blocks of `list` in order and ends at 0.
  predicate Threaded(next: seq<int>, head: int, list: seq<int>)
    decreases |list|
  {
    if list == [] then head == 0
    else head == list[0] && 0 < head < |next| && Threaded(next, next[head], list[1..])
  }

  lemma {:induction false} ThreadedElsewhere(next: seq<int>, head: int, list: seq<int>, b: int, link: int)
    requires Threaded(next, head, list) && 0 <= b < |next| && b !in list
    ensures Threaded(next[b := link], head, list)
    decreases |list|
  {
    if list != [] {
      ThreadedElsewhere(next, next[head], list[1..], b, link);
    }
  }

  lemma {:induction false} ThreadedAscending(next: seq<int>, list: seq<int>, k: nat)
    requires k <= |list| < |next|
    requires forall i :: 0 <= i < |list| ==> list[i] == i + 1 < |next|
    requires forall i :: 0 < i <= |list| ==> next[i] == if i < |list| then i + 1 else 0
    ensures Threaded(next, if k < |list| then k + 1 else 0, list[k..])
    decreases |list| - k
  {
    if k < |list| {
      ThreadedAscending(next, list, k + 1);
      assert list[k..][1..] == list[k + 1..];
    }
  }

  lemma AscendingList(next: seq<int>, refs: seq<int>, list: seq<int>)
    requires |list| < |next| == |refs|
    requires forall i :: 0 <= i < |list| ==> list[i] == i + 1
    requires forall i :: 0 < i <= |list| ==> next[i] == if i < |list| then i + 1 else 0
    ensures Threaded(next, if list == [] then 0 else 1, list)
    ensures Frames(list, refs).Valid()
  {
    ThreadedAscending(next, list, 0);
  }

  datatype PageInfo = PageInfo(next: int, refCount: int)

  function AlignUp(a: nat): nat {
    if a % 4096 == 0 then a else a - a % 4096 + 4096
  }

  // The first page past the kernel and the video memory (physfree plus one megabyte).
  function FirstUsable(physfree: nat): nat {
    (physfree + 0x10_0000) / 4096 * 4096 + 4096
  }

  // How many pages start in [first, last).
  function UsablePages(first: nat, last: nat): nat {
    if first < last then (last - first + 4095) / 4096 else 0
  }

  // The usable pages are those that start on a page boundary above the first megabyte behind
  // the kernel and below the end of the range.
  lemma UsableIs(physfree: nat, last: nat, k: nat)
    ensures var first := FirstUsable(physfree);
            && first % 4096 == 0 && physfree + 1024 * 1024 < first <= physfree + 1024 * 1024 + 4096
            && (k < UsablePages(first, last) <==> first + 4096 * k < last)
  {
  }

  // How far the boot pass has come: before the first page boundary, on a page it skips,
  // or past `block` usable pages.
  predicate Scanned(base: nat, base0: nat, physfree: nat, block: int, freeMemory: nat) {
    || (base == base0 && block == 0)
    || (base == AlignUp(base0) && block == 0)
    || (base % 4096 == 0 && base <= FirstUsable(physfree) && block == 0 && freeMemory == base)
    || (block > 0 && base == FirstUsable(physfree) + 4096 * block && freeMemory == FirstUsable(physfree))
  }

  // What one turn of the boot pass does with page boundary, skipped page and usable page.
  lemma ScanStep(base: nat, base0: nat, physfree: nat, block: int, freeMemory: nat)
    requires AlignUp(base0) <= physfree + 0x10_0000
    requires Scanned(base, base0, physfree, block, freeMemory)
    ensures base % 4096 != 0 ==>
              && base == base0 && block == 0
              && Scanned(base - base % 4096 + 4096, base0, physfree, block, freeMemory)
    ensures base % 4096 == 0 && base <= physfree + 0x10_0000 ==>
              Scanned(base + 4096, base0, physfree, block, base + 4096)
    ensures base % 4096 == 0 && base > physfree + 0x10_0000 ==>
              && block >= 0 && base == FirstUsable(physfree) + 4096 * block
              && freeMemory == FirstUsable(physfree)
              && Scanned(base + 4096, base0, physfree, block + 1, freeMemory)
  {
  }

  lemma ScanEnd(base: nat, base0: nat, physfree: nat, block: int, freeMemory: nat)
    requires AlignUp(base0) <= physfree + 0x10_0000
    requires Scanned(base, base0, physfree, block, freeMemory) && base > AlignUp(base0)
    ensures block == 0 ==> base <= FirstUsable(physfree)
    ensures block > 0 ==> base == FirstUsable(physfree) + 4096 * block && freeMemory == FirstUsable(physfree)
  {
  }

  lemma UsableCount(first: nat, last: nat, n: nat)
    requires last <= first + 4096 * n
    requires n > 0 ==> first + 4096 * (n - 1) < last
    ensures UsablePages(first, last) == n
  {
  }

  lemma UsableAtLeast(first: nat, last: nat, n: nat)
    requires first + 4096 * n < last
    ensures UsablePages(first, last) > n
  {
  }

  class PhysicalMemoryManager {
    const pageList: array<PageInfo>
    var headFreeList: int
    var lastFreeBlock: int
    var currBlock: int
    var totalBlockCount: int
    var freeMemory: nat
    ghost var free: seq<int>

    ghost function Nexts(): (v: seq<int>)
      reads pageList
      ensures |v| == pageList.Length
    {
      seq(pageList.Length, i requires 0 <= i < pageList.Length reads pageList => pageList[i].next)
    }

    ghost function Refs(): (v: seq<int>)
      reads pageList
      ensures |v| == pageList.Length
    {
      seq(pageList.Length, i requires 0 <= i < pageList.Length reads pageList => pageList[i].refCount)
    }

    ghost function View(): Frames
      reads this, pageList
    {
      Frames(free, Refs())
    }

    // The list read off the array from `headFreeList` is `free`.
    ghost predicate Linked()
      reads this, pageList
    {
      View().Valid() && Threaded(Nexts(), headFreeList, free)
    }

    ghost predicate Valid()
      reads this, pageList
    {
      && Linked()
      && totalBlockCount == |free| - 1
      && freeMemory % 4096 == 0
    }

    // Boot state: the static variables are zero.
    constructor (size: nat)
      requires size > 0
      ensures fresh(pageList) && pageList.Length == size
      ensures headFreeList == 0 && lastFreeBlock == 0 && currBlock == 0
      ensures totalBlockCount == 0 && freeMemory == 0 && free == []
      ensures forall i :: 0 <= i < size ==> pageList[i] == PageInfo(0, 0)
    {
      pageList := new PageInfo[size](_ => PageInfo(0, 0));
      headFreeList, lastFreeBlock, currBlock, totalBlockCount := 0, 0, 0, 0;
      freeMemory := 0;
      free := [];
    }

    // The boot-time pass over one memory range.  The first block stays number 0, which
    // is also the end mark, so it is never put on the list; the counter starts one
    // block later still.
    method FreeList(base0: nat, length: nat, physfree: nat)
      requires base0 != 0 && AlignUp(base0) <= physfree + 0x10_0000 && AlignUp(base0) < base0 + length
      requires headFreeList == 0 && lastFreeBlock == 0 && currBlock == 0
      requires totalBlockCount == 0 && free == [] && freeMemory == 0
      requires forall i :: 0 <= i < pageList.Length ==> pageList[i] == PageInfo(0, 0)
      requires UsablePages(FirstUsable(physfree), base0 + length) <= pageList.Length
      requires pageList.Length > 0
      modifies this, pageList
      ensures var n := UsablePages(FirstUsable(physfree), base0 + length);
              && free == seq(if n < 2 then 0 else n - 1, i => i + 1)
              && Linked()
              && totalBlockCount == (if n < 2 then 0 else n - 2)
              && (n >= 1 ==> freeMemory == FirstUsable(physfree))
              && (Valid() <==> n >= 2)
      ensures forall i :: 0 <= i < pageList.Length ==> pageList[i].refCount == 0
    {
      var base, lastAddr := base0, base0 + length;
      assert Scanned(base, base0, physfree, currBlock, freeMemory);
      hide FirstUsable, UsablePages, Threaded, Frames.Valid, Scanned, AlignUp;
      ghost var first := FirstUsable(physfree);
      while base < lastAddr
        invariant Scanned(base, base0, physfree, currBlock, freeMemory)
        invariant currBlock >= 0
        invariant currBlock > 0 ==> first + 4096 * (currBlock - 1) < lastAddr
        invariant |free| == (if currBlock < 2 then 0 else currBlock - 1)
        invariant forall i :: 0 <= i < |free| ==> free[i] == i + 1
        invariant lastFreeBlock == |free|
        invariant headFreeList == if free == [] then 0 else 1
        invariant totalBlockCount == if |free| == 0 then 0 else |free| - 1
        invariant forall i :: 0 <= i < pageList.Length ==>
                    pageList[i] == PageInfo(if 0 < i < |free| then i + 1 else 0, 0)
        decreases lastAddr + 4096 - base
      {
        ScanStep(base, base0, physfree, currBlock, freeMemory);
        if base % 4096 != 0 {
          base := base - base % 4096 + 4096;
          continue;
        }
        if base <= physfree + 0x10_0000 {
          base := base + 4096;
          freeMemory := base;
          continue;
        }
        UsableAtLeast(first, lastAddr, currBlock);
        if lastFreeBlock == 0 {
          lastFreeBlock := currBlock;
          headFreeList := lastFreeBlock;
        } else {
          pageList[lastFreeBlock] := PageInfo(currBlock, 0);
          lastFreeBlock := currBlock;
          totalBlockCount := totalBlockCount + 1;
        }
        if currBlock > 0 {
          free := free + [currBlock];
        }
        currBlock := currBlock + 1;
        base := base + 4096;
      }
      ScanEnd(base, base0, physfree, currBlock, freeMemory);
      UsableCount(first, lastAddr, currBlock);
      AscendingList(Nexts(), Refs(), free);
    }

    // None when memory is exhausted, and then the machine has stopped.
    method GetPage() returns (r: Option<nat>)
      requires Valid()
      modifies this, pageList
      ensures Valid() && freeMemory == old(freeMemory)
      ensures r.None? <==> old(View().Exhausted())
      ensures r.None? ==> View() == old(View())
      ensures r.Some? ==> View() == old(View().Take()) && r.value == freeMemory + old(free[0]) * 4096
    {
      if totalBlockCount < 5 {
        return None;
      }
      if headFreeList == 0 {
        // A list of six blocks has a first block, and that is not block 0.
        assert false;
      }
      ghost var next, refs := Nexts(), Refs();
      TakeGive(View());
      var freeBlock := headFreeList;
      headFreeList := pageList[headFreeList].next;
      totalBlockCount := totalBlockCount - 1;
      pageList[freeBlock] := pageList[freeBlock].(refCount := pageList[freeBlock].refCount + 1);
      free := free[1..];
      assert Nexts() == next;
      assert Refs() == refs[freeBlock := refs[freeBlock] + 1];
      return Some(freeMemory + freeBlock * 4096);
    }

    method GetReferenceCount(paddr: nat) returns (n: int)
      requires 0 <= BlockIndex(paddr, freeMemory) < pageList.Length
      ensures n == Refs()[BlockIndex(paddr, freeMemory)]
    {
      n := pageList[BlockIndex(paddr, freeMemory)].refCount;
    }

    method IncrementReferenceCount(paddr: nat)
      requires Valid() && 0 <= BlockIndex(paddr, freeMemory) < pageList.Length
      modifies pageList
      ensures Valid() && View() == old(View()).Inc(BlockIndex(paddr, freeMemory))
    {
      ghost var next, refs := Nexts(), Refs();
      var b := BlockIndex(paddr, freeMemory);
      pageList[b] := pageList[b].(refCount := pageList[b].refCount + 1);
      assert Nexts() == next;
      assert Refs() == refs[b := refs[b] + 1];
    }

    method DecrementReferenceCount(paddr: nat)
      requires Valid() && 0 <= BlockIndex(paddr, freeMemory) < pageList.Length
      modifies pageList
      ensures Valid() && View() == old(View()).Dec(BlockIndex(paddr, freeMemory))
    {
      ghost var next, refs := Nexts(), Refs();
      var b := BlockIndex(paddr, freeMemory);
      if pageList[b].refCount < 1 {
        return;
      }
      pageList[b] := pageList[b].(refCount := pageList[b].refCount - 1);
      assert Nexts() == next;
      assert Refs() == refs[b := refs[b] - 1];
    }

    // The source asks of its callers that the block be in use; block 0 is never in use.
    method FreePage(paddr: nat)
      requires Valid() && 0 < BlockIndex(paddr, freeMemory) < pageList.Length
      requires BlockIndex(paddr, freeMemory) !in free
      modifies this, pageList
      ensures Valid() && freeMemory == old(freeMemory)
      ensures View() == old(View()).Give(BlockIndex(paddr, freeMemory))
    {
      ghost var next, refs := Nexts(), Refs();
      var b := BlockIndex(paddr, freeMemory);
      pageList[b] := pageList[b].(next := headFreeList);
      headFreeList := b;
      totalBlockCount := totalBlockCount + 1;
      ThreadedElsewhere(next, old(headFreeList), free, b, old(headFreeList));
      free := [b] + free;
      assert free[1..] == old(free);
      assert Nexts() == next[b := old(headFreeList)];
      assert Refs() == refs;
    }
  }
}
