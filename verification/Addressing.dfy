/**
  64-bit address arithmetic of sys/paging.c and sys/task_manager.c.

  The kernel never knows the physical address of a page table.  It reaches a table
  through entry 510 of the top-level table, which points back at that table: an
  address whose leading indices are 510 makes the hardware walk stop short, on a
  table instead of on a page.  This module has the shift chains that cut an address
  into indices, the chains that build such addresses, and what the hardware makes
  of both.

  A C `uint64_t` is a natural number below 2^64; `x << 9` is `x * 0x200 % U64` and
  `x >> 9` is `x / 0x200`.
 */
module Addressing {

  const U64: nat := 0x1_0000_0000_0000_0000
  const PAGE_SIZE: nat := 0x1000
  // The entry of the top-level table that points at that table (0x1FE).
  const SELF_SLOT: nat := 510
  // The entry of the top-level table shared by all address spaces.
  const KERNEL_SLOT: nat := 511

  // ---------------------------------------------------------------- bitwise or

  function BitOr(x: nat, y: nat): nat
    decreases x + y
  {
    if x == 0 then y
    else if y == 0 then x
    else 2 * BitOr(x / 2, y / 2) + (if x % 2 == 1 || y % 2 == 1 then 1 else 0)
  }

  function Pow2(k: nat): nat {
    if k == 0 then 1 else 2 * Pow2(k - 1)
  }

  predicate LowBitsClear(x: nat, k: nat) {
    k == 0 || (x % 2 == 0 && LowBitsClear(x / 2, k - 1))
  }

  // Or-ing into cleared bits adds.
  lemma {:induction false} BitOrClear(x: nat, y: nat, k: nat)
    requires LowBitsClear(x, k) && y < Pow2(k)
    ensures BitOr(x, y) == x + y
  {
    if x != 0 && y != 0 {
      BitOrClear(x / 2, y / 2, k - 1);
    }
  }

  lemma ClearedByDoubling(x: nat, k: nat)
    requires LowBitsClear(x, k)
    ensures LowBitsClear(2 * x, k + 1)
  {
    assert 2 * x / 2 == x;
  }

  lemma LowBitsClear9(x: nat)
    ensures LowBitsClear(512 * x, 9)
  {
    hide LowBitsClear;
    assert LowBitsClear(x, 0) by { ClearedByNothing(x); }
    ClearedByDoubling(x, 0);
    ClearedByDoubling(2 * x, 1);
    ClearedByDoubling(4 * x, 2);
    ClearedByDoubling(8 * x, 3);
    ClearedByDoubling(16 * x, 4);
    ClearedByDoubling(32 * x, 5);
    ClearedByDoubling(64 * x, 6);
    ClearedByDoubling(128 * x, 7);
    ClearedByDoubling(256 * x, 8);
  }

  lemma ClearedByNothing(x: nat)
    ensures LowBitsClear(x, 0)
  {
  }

  lemma BitOrLow9(x: nat, y: nat)
    requires y < 512
    ensures BitOr(512 * x, y) == 512 * x + y
  {
    hide BitOr, LowBitsClear;
    LowBitsClear9(x);
    assert Pow2(9) == 512;
    BitOrClear(512 * x, y, 9);
  }

  // ---------------------------------------------------------------- indices

  // p1_index .. p4_index: push the bits above the wanted nine out of the word, then
  // bring the nine down.
  function P1Index(va: nat): nat { (va * 0x1_0000 % U64) / 0x80_0000_0000_0000 }
  function P2Index(va: nat): nat { (va * 0x200_0000 % U64) / 0x80_0000_0000_0000 }
  function P3Index(va: nat): nat { (va * 0x4_0000_0000 % U64) / 0x80_0000_0000_0000 }
  function P4Index(va: nat): nat { (va * 0x800_0000_0000 % U64) / 0x80_0000_0000_0000 }

  // Bits 47:39, 38:30, 29:21 and 20:12 of an address, as the processor takes them
  // (Intel SDM volume 3A, section 4.5), and bits 11:0, the offset.
  function HwPml4(va: nat): (i: nat) ensures i < 512 { va / 0x80_0000_0000 % 512 }
  function HwPdpt(va: nat): (i: nat) ensures i < 512 { va / 0x4000_0000 % 512 }
  function HwPd(va: nat): (i: nat) ensures i < 512 { va / 0x20_0000 % 512 }
  function HwPt(va: nat): (i: nat) ensures i < 512 { va / 0x1000 % 512 }
  function OffsetOf(va: nat): (o: nat) ensures o < PAGE_SIZE { va % 0x1000 }

  // Four nine-bit fields as one page number.
  function Fields(a: nat, b: nat, c: nat, d: nat): nat {
    ((a * 512 + b) * 512 + c) * 512 + d
  }

  // The number of the 4 KiB page holding an address: bits 47:12.
  function PageOf(va: nat): nat { va / 0x1000 % 0x10_0000_0000 }

  // The address of the first byte of a page in the lower half.
  function AddressOf(page: nat): nat { page * 0x1000 }

  // The processor faults on an address whose bits 63:47 are not all equal.
  predicate Canonical(va: nat) {
    va / 0x8000_0000_0000 == 0 || va / 0x8000_0000_0000 == 0x1_FFFF
  }

  // The shift chains extract exactly the fields the processor uses, for every address.
  lemma IndexChains(va: nat)
    ensures P1Index(va) == HwPml4(va) && P2Index(va) == HwPdpt(va)
    ensures P3Index(va) == HwPd(va) && P4Index(va) == HwPt(va)
  {
    P1Chain(va);
    P2Chain(va);
    P3Chain(va);
    P4Chain(va);
  }

  lemma P1Chain(va: nat)
    ensures P1Index(va) == HwPml4(va)
  {
    var r := va % 0x1_0000_0000_0000;
    assert va * 0x1_0000 % U64 == r * 0x1_0000;
    assert r * 0x1_0000 / 0x80_0000_0000_0000 == r / 0x80_0000_0000;
    assert va / 0x80_0000_0000 == va / 0x1_0000_0000_0000 * 512 + r / 0x80_0000_0000;
  }

  lemma P2Chain(va: nat)
    ensures P2Index(va) == HwPdpt(va)
  {
    var r := va % 0x80_0000_0000;
    assert va * 0x200_0000 % U64 == r * 0x200_0000;
    assert r * 0x200_0000 / 0x80_0000_0000_0000 == r / 0x4000_0000;
    assert va / 0x4000_0000 == va / 0x80_0000_0000 * 512 + r / 0x4000_0000;
  }

  lemma P3Chain(va: nat)
    ensures P3Index(va) == HwPd(va)
  {
    var r := va % 0x4000_0000;
    assert va * 0x4_0000_0000 % U64 == r * 0x4_0000_0000;
    assert r * 0x4_0000_0000 / 0x80_0000_0000_0000 == r / 0x20_0000;
    assert va / 0x20_0000 == va / 0x4000_0000 * 512 + r / 0x20_0000;
  }

  lemma P4Chain(va: nat)
    ensures P4Index(va) == HwPt(va)
  {
    var r := va % 0x20_0000;
    assert va * 0x800_0000_0000 % U64 == r * 0x800_0000_0000;
    assert r * 0x800_0000_0000 / 0x80_0000_0000_0000 == r / 0x1000;
    assert va / 0x1000 == va / 0x20_0000 * 512 + r / 0x1000;
  }

  lemma ShiftsNest(va: nat)
    ensures va / 0x20_0000 == va / 0x1000 / 512
    ensures va / 0x4000_0000 == va / 0x20_0000 / 512
    ensures va / 0x80_0000_0000 == va / 0x4000_0000 / 512
    ensures va / 0x8000_0000_0000 == va / 0x80_0000_0000 / 256
  {
  }

  // Below 2^48 the page number is the address without its offset.
  lemma PageOfLow(va: nat)
    requires va < 0x1_0000_0000_0000
    ensures PageOf(va) == va / 0x1000
  {
    ShiftsNest(va);
  }

  // An address in the part of an address space that its process has to itself: the
  // processor takes it, and its walk starts neither at entry 510 nor at entry 511.
  predicate Private(va: nat) {
    va < 0x8000_0000_0000 || 0xFFFF_8000_0000_0000 <= va < 0xFFFF_FF00_0000_0000
  }

  lemma PrivateIff(va: nat)
    ensures Private(va) <==> Canonical(va) && HwPml4(va) != SELF_SLOT && HwPml4(va) != KERNEL_SLOT
  {
    ShiftsNest(va);
  }

  // An address of the part that all address spaces share: its walk starts at entry 511.
  predicate Upper(va: nat) {
    0xFFFF_FF80_0000_0000 <= va < U64
  }

  lemma UpperIff(va: nat)
    ensures Upper(va) <==> Canonical(va) && HwPml4(va) == KERNEL_SLOT
  {
    ShiftsNest(va);
  }

  // The pages below entry 510.
  const PRIVATE_LIMIT: nat := 0xF_F000_0000

  // The page number is made of the four fields.
  lemma PageFields(va: nat)
    ensures PageOf(va) == Fields(HwPml4(va), HwPdpt(va), HwPd(va), HwPt(va))
    ensures PageOf(va) / 512 / 512 / 512 == HwPml4(va)
  {
    ShiftsNest(va);
    var n1 := va / 0x1000;
    var n2, n3, n4 := n1 / 512, n1 / 512 / 512, n1 / 512 / 512 / 512;
    NineMore18(n3);
    NineMore27(n2);
    NineMore36(n1);
  }

  // The low bits of a number: those of the number without its last nine, and the last nine.
  lemma NineMore18(n: nat)
    ensures n % 0x4_0000 == n / 512 % 512 * 512 + n % 512
  {
  }

  lemma NineMore27(n: nat)
    ensures n % 0x800_0000 == n / 512 % 0x4_0000 * 512 + n % 512
  {
  }

  lemma NineMore36(n: nat)
    ensures n % 0x10_0000_0000 == n / 512 % 0x800_0000 * 512 + n % 512
  {
  }

  lemma PrivatePage(va: nat)
    requires Private(va)
    ensures PageOf(va) < PRIVATE_LIMIT
  {
    PageFields(va);
    PrivateIff(va);
    hide PageOf, HwPml4, Private;
    assert PageOf(va) / 512 / 512 / 512 < 510;
  }

  // The address of a page of the upper half.
  lemma UpperAddress(n: nat, o: nat)
    requires n / 512 / 512 / 512 == KERNEL_SLOT && o < PAGE_SIZE
    ensures var va := 0xFFFF_0000_0000_0000 + n * 0x1000 + o;
            Canonical(va) && PageOf(va) == n && HwPml4(va) == KERNEL_SLOT && OffsetOf(va) == o
  {
    var a, b, c, d := n / 512 / 512 / 512, n / 512 / 512 % 512, n / 512 % 512, n % 512;
    assert Fields(a, b, c, d) == n;
    FieldsAddress(a, b, c, d, o);
  }

  // The lower half is private.
  lemma LowPrivate(va: nat)
    requires va < 0x8000_0000_0000
    ensures Private(va) && PageOf(va) == va / 0x1000
  {
    PageOfLow(va);
  }

  // A page number and an offset are one canonical address.
  lemma SameAddress(x: nat, y: nat)
    requires Canonical(x) && Canonical(y) && PageOf(x) == PageOf(y) && OffsetOf(x) == OffsetOf(y)
    ensures x == y
  {
    CanonicalParts(x);
    CanonicalParts(y);
  }

  lemma CanonicalParts(x: nat)
    requires Canonical(x)
    ensures var n := x / 0x1000 % 0x10_0000_0000;
            x == (if n < 0x8_0000_0000 then 0 else 0xFFFF_0000_0000_0000) + n * 0x1000 + OffsetOf(x)
  {
  }

  // The first address of the page of an address.
  lemma PageStart(va: nat)
    ensures var x := va / 0x1000 * 0x1000;
            && PageOf(x) == PageOf(va) && x % 0x1000 == 0
            && (Canonical(x) <==> Canonical(va)) && HwPml4(x) == HwPml4(va)
  {
    var x := va / 0x1000 * 0x1000;
    assert x / 0x1000 == va / 0x1000;
    ShiftsNest(va);
    ShiftsNest(x);
  }

  // ---------------------------------------------------------- recursive bases

  const BASE: nat := 0xFFFF_0000_0000_0000

  // The four assignments to `base`, one function each.
  function Base1(base: nat, a: nat): nat {
    BitOr(base / 0x1_0000_0000_0000 * 0x200 % U64, a) * 0x80_0000_0000 % U64
  }
  function Base2(base: nat, b: nat): nat {
    BitOr(base / 0x80_0000_0000 * 0x200 % U64, b) * 0x4000_0000 % U64
  }
  function Base3(base: nat, c: nat): nat {
    BitOr(base / 0x4000_0000 * 0x200 % U64, c) * 0x20_0000 % U64
  }
  function Base4(base: nat, d: nat): nat {
    BitOr(base / 0x20_0000 * 0x200 % U64, d) * 0x1000 % U64
  }

  function Chain(base: nat, a: nat, b: nat, c: nat, d: nat): nat {
    Base4(Base3(Base2(Base1(base, a), b), c), d)
  }

  // `base` is reused from round to round: what matters is its sixteen leading ones.
  predicate HighOnes(base: nat) {
    base / 0x1_0000_0000_0000 == 0xFFFF
  }

  lemma Base1Value(base: nat, a: nat)
    requires HighOnes(base) && a < 512
    ensures Base1(base, a) == (0xFFFF * 512 + a) * 0x80_0000_0000
  {
    BitOrLow9(0xFFFF, a);
  }

  lemma Base2Value(n: nat, b: nat)
    requires n < 0x200_0000 && b < 512
    ensures Base2(n * 0x80_0000_0000, b) == (n * 512 + b) * 0x4000_0000
  {
    hide BitOr;
    assert n * 0x80_0000_0000 / 0x80_0000_0000 == n;
    BitOrLow9(n, b);
    assert n * 512 + b < 512 * (n + 1);
  }

  lemma Base3Value(n: nat, c: nat)
    requires n < 0x4_0000_0000 && c < 512
    ensures Base3(n * 0x4000_0000, c) == (n * 512 + c) * 0x20_0000
  {
    hide BitOr;
    assert n * 0x4000_0000 / 0x4000_0000 == n;
    BitOrLow9(n, c);
    assert n * 512 + c < 512 * (n + 1);
  }

  lemma Base4Value(n: nat, d: nat)
    requires n < 0x800_0000_0000 && d < 512
    ensures Base4(n * 0x20_0000, d) == (n * 512 + d) * 0x1000
  {
    hide BitOr;
    assert n * 0x20_0000 / 0x20_0000 == n;
    BitOrLow9(n, d);
    assert n * 512 + d < 512 * (n + 1);
  }

  lemma ChainValue(base: nat, a: nat, b: nat, c: nat, d: nat)
    requires HighOnes(base)
    requires a < 512 && b < 512 && c < 512 && d < 512
    ensures Chain(base, a, b, c, d) == 0xFFFF_0000_0000_0000 + Fields(a, b, c, d) * 0x1000
    ensures HighOnes(Chain(base, a, b, c, d))
  {
    Base1Value(base, a);
    var n1 := 0xFFFF * 512 + a;
    Base2Value(n1, b);
    var n2 := n1 * 512 + b;
    Base3Value(n2, c);
    var n3 := n2 * 512 + c;
    Base4Value(n3, d);
  }

  // Word `i` of the page at a computed base: the processor sees the four indices the
  // chain put in, offset 8 * i, and a canonical address when the first index is 510.
  lemma ChainIndices(base: nat, a: nat, b: nat, c: nat, d: nat, i: nat)
    requires HighOnes(base)
    requires a < 512 && b < 512 && c < 512 && d < 512 && i < 512
    ensures var va := Chain(base, a, b, c, d) + 8 * i;
            && va < U64
            && HwPml4(va) == a && HwPdpt(va) == b && HwPd(va) == c && HwPt(va) == d
            && OffsetOf(va) == 8 * i
            && (a == SELF_SLOT ==> Canonical(va))
  {
    ChainValue(base, a, b, c, d);
    FieldsAddress(a, b, c, d, 8 * i);
  }

  lemma FieldsAddress(a: nat, b: nat, c: nat, d: nat, o: nat)
    requires a < 512 && b < 512 && c < 512 && d < 512 && o < PAGE_SIZE
    ensures var va := 0xFFFF_0000_0000_0000 + Fields(a, b, c, d) * 0x1000 + o;
            && va < U64
            && HwPml4(va) == a && HwPdpt(va) == b && HwPd(va) == c && HwPt(va) == d
            && OffsetOf(va) == o
            && (a >= 256 ==> Canonical(va))
  {
    var va := 0xFFFF_0000_0000_0000 + Fields(a, b, c, d) * 0x1000 + o;
    var n1 := 0xFFFF * 512 + a;
    var n2 := n1 * 512 + b;
    var n3 := n2 * 512 + c;
    var n4 := n3 * 512 + d;
    assert va == n4 * 0x1000 + o;
    assert va / 0x1000 == n4;
    ShiftsNest(va);
    assert n4 / 512 == n3 && n3 / 512 == n2 && n2 / 512 == n1;
  }
}
