/**
  sys/tarfs.c and the archive walk of sys/vfs.c: octal sizes, and the headers of a ustar
  image (POSIX.1-2017, pax utility, "ustar Interchange Format").
 */
module Archive {
  import opened Tokeniser

  newtype Int32 = x: int | -0x8000_0000 <= x < 0x8000_0000

  // ---------------------------------------------------------------- octal numbers

  function Pow(x: int, y: nat): int {
    if y == 0 then 1 else x * Pow(x, y - 1)
  }

  lemma {:induction false} PowSum(x: int, a: nat, b: nat)
    ensures Pow(x, a + b) == Pow(x, a) * Pow(x, b)
    decreases a
  {
    if a > 0 {
      PowSum(x, a - 1, b);
      assert x * (Pow(x, a - 1) * Pow(x, b)) == (x * Pow(x, a - 1)) * Pow(x, b);
    }
  }

  // power, by halving the exponent.
  function Power(x: int, y: nat): (r: int)
    ensures r == Pow(x, y)
  {
    if y == 0 then 1
    else
      PowSum(x, y / 2, y / 2);
      if y % 2 == 0 then Power(x, y / 2) * Power(x, y / 2)
      else
        assert x * Pow(x, y / 2) * Pow(x, y / 2) == x * (Pow(x, y / 2) * Pow(x, y / 2));
        x * Power(x, y / 2) * Power(x, y / 2)
  }

  predicate Digits(s: string) {
    forall k :: 0 <= k < |s| ==> '0' <= s[k] <= '7'
  }

  function Digit(c: char): int { c as int - '0' as int }

  // What a string of digits means to a base.
  function Value(s: string, base: int): int {
    if s == [] then 0 else Value(s[..|s| - 1], base) * base + Digit(s[|s| - 1])
  }

  lemma {:induction false} ValueBounds(s: string)
    requires Digits(s)
    ensures 0 <= Value(s, 8) <= Value(s, 10)
  {
    if s != [] {
      ValueBounds(s[..|s| - 1]);
    }
  }

  // A shorter prefix is no larger.
  lemma {:induction false} ValueGrows(s: string, i: nat)
    requires Digits(s) && i <= |s|
    ensures 0 <= Value(s[..i], 10) <= Value(s, 10)
    decreases |s|
  {
    ValueBounds(s[..i]);
    if i < |s| {
      assert s[..|s| - 1][..i] == s[..i];
      ValueGrows(s[..|s| - 1], i);
    } else {
      assert s[..i] == s;
    }
  }

  // The octal reading of the decimal digits of n.
  function Reread(n: nat): int {
    if n == 0 then 0 else Reread(n / 10) * 8 + n % 10
  }

  lemma {:induction false} RereadValue(s: string)
    requires Digits(s)
    ensures Value(s, 10) >= 0 && Reread(Value(s, 10)) == Value(s, 8)
  {
    ValueBounds(s);
    if s != [] {
      var t := s[..|s| - 1];
      ValueBounds(t);
      RereadValue(t);
      var n := Value(s, 10);
      assert n == Value(t, 10) * 10 + Digit(s[|s| - 1]);
      assert n / 10 == Value(t, 10) && n % 10 == Digit(s[|s| - 1]);
      assert n == 0 ==> Value(t, 10) == 0;
    }
  }

  lemma {:induction false} RereadBounds(n: nat)
    ensures 0 <= Reread(n) <= n
  {
    if n > 0 {
      RereadBounds(n / 10);
    }
  }

  // oct_to_dec: the digits are read as a decimal number, and its digits taken off again.
  // An int holds the decimal number exactly when that is below 2^31.
  method OctToDec(num: seq<char>) returns (dec: Int32)
    requires Terminated(num) && Digits(Text(num)) && Value(Text(num), 10) < 0x8000_0000
    ensures dec as int == Value(Text(num), 8)
  {
    ghost var s := Text(num);
    var i, oct: Int32 := 0, 0;
    while num[i] != NUL
      invariant i <= |s| && oct as int == Value(s[..i], 10)
      decreases |s| - i
    {
      assert s[..i + 1][..i] == s[..i];
      ValueGrows(s, i);
      ValueGrows(s, i + 1);
      if num[i] == '0' && oct == 0 {
        i := i + 1;
        continue;
      }
      oct := 10 * oct + (num[i] as int - '0' as int) as Int32;
      i := i + 1;
    }
    assert s[..i] == s;
    RereadValue(s);
    dec := TakeOff(oct);
  }

  // The second loop of oct_to_dec.
  method TakeOff(n: Int32) returns (dec: Int32)
    requires n >= 0
    ensures dec as int == Reread(n as int)
  {
    hide Pow, Reread, Scaled;
    var oct, i := n, 0;
    dec := 0;
    StartTaking(n as int);
    while oct != 0
      invariant oct >= 0 && 0 <= dec
      invariant dec as int + Scaled(i, Reread(oct as int)) == Reread(n as int)
      decreases oct
    {
      var rem := oct % 10;
      TakeDigit(dec as int, i, oct as int, Reread(n as int));
      oct := oct / 10;
      dec := (dec as int + rem as int * Power(8, i)) as Int32;
      i := i + 1;
    }
    EndTaking(i);
  }

  function Scaled(i: nat, r: int): int { Pow(8, i) * r }

  lemma StartTaking(n: nat)
    ensures Scaled(0, Reread(n)) == Reread(n) <= n
  {
    RereadBounds(n);
  }

  lemma EndTaking(i: nat)
    ensures Scaled(i, Reread(0)) == 0
  {
  }

  // One digit from the decimal number to the octal value.
  lemma TakeDigit(dec: nat, i: nat, oct: nat, total: int)
    requires oct > 0 && dec + Scaled(i, Reread(oct)) == total
    ensures dec + oct % 10 * Pow(8, i) + Scaled(i + 1, Reread(oct / 10)) == total
    ensures dec <= dec + oct % 10 * Pow(8, i) <= total
  {
    PowPositive(i);
    RereadBounds(oct / 10);
    var p, q, r, d := Pow(8, i), Pow(8, i + 1), Reread(oct / 10), oct % 10;
    assert q == 8 * p;
    hide Pow, Reread;
    Distribute(p, q, r, d);
  }

  lemma Distribute(p: int, q: int, r: int, d: int)
    requires p > 0 && q == 8 * p && r >= 0 && d >= 0
    ensures p * (r * 8 + d) == q * r + d * p
    ensures q * r >= 0 && d * p >= 0
  {
  }

  lemma {:induction false} PowPositive(i: nat)
    ensures Pow(8, i) > 0
  {
    if i > 0 {
      PowPositive(i - 1);
    }
  }

  // Without its leading zeros.
  function Significant(s: string): string {
    if s != [] && s[0] == '0' then Significant(s[1..]) else s
  }

  lemma {:induction false} LeadingZero(s: string, base: int)
    requires s != [] && s[0] == '0'
    ensures Value(s, base) == Value(s[1..], base)
    decreases |s|
  {
    if |s| > 1 {
      assert s[..|s| - 1][1..] == s[1..][..|s| - 2];
      LeadingZero(s[..|s| - 1], base);
    }
  }

  lemma {:induction false} SignificantValue(s: string, base: int)
    ensures Value(Significant(s), base) == Value(s, base)
  {
    if s != [] && s[0] == '0' {
      LeadingZero(s, base);
      SignificantValue(s[1..], base);
    }
  }

  lemma {:induction false} ValueBelow(s: string)
    requires Digits(s)
    ensures Value(s, 10) < Pow(10, |s|)
  {
    if s != [] {
      ValueBelow(s[..|s| - 1]);
    }
  }

  // Up to nine digits that count, oct_to_dec is the octal value.
  lemma NineDigits(s: string)
    requires Digits(s) && |Significant(s)| <= 9
    ensures Value(s, 10) < 0x8000_0000
  {
    SignificantValue(s, 10);
    SignificantDigits(s);
    ValueBelow(Significant(s));
    PowSmall(|Significant(s)|);
  }

  lemma {:induction false} SignificantDigits(s: string)
    requires Digits(s)
    ensures Digits(Significant(s))
  {
    if s != [] && s[0] == '0' {
      SignificantDigits(s[1..]);
    }
  }

  lemma {:induction false} PowSmall(n: nat)
    requires n <= 9
    ensures 0 < Pow(10, n) <= 10_0000_0000
    ensures Pow(10, n) * Pow(10, 9 - n) == 10_0000_0000
  {
    assert Pow(10, 0) == 1;
    assert Pow(10, 3) == 1000 by {
      assert Pow(10, 1) == 10 && Pow(10, 2) == 100;
    }
    PowSum(10, 3, 3);
    PowSum(10, 6, 3);
    PowSum(10, n, 9 - n);
    TenPositive(n);
    TenPositive(9 - n);
    assert Pow(10, n) <= Pow(10, n) * Pow(10, 9 - n);
  }

  lemma {:induction false} TenPositive(n: nat)
    ensures Pow(10, n) >= 1
  {
    if n > 0 {
      TenPositive(n - 1);
    }
  }

  // ------------------------------------------------------------------- the archive

  const BLOCK: nat := 512

  type Block = b: seq<char> | |b| == 512 witness seq(512, i => NUL)

  function SizeField(b: Block): seq<char> { b[124..136] }

  function TypeFlag(b: Block): char { b[156] }

  datatype Kind = Dir | File

  datatype Found = Found(name: string, start: nat, end: nat, kind: Kind)

  datatype Member = Member(header: Block, data: seq<Block>)

  function SizeOf(b: Block): int
    requires Terminated(SizeField(b))
  {
    Value(Text(SizeField(b)), 8)
  }

  // A header that is taken into the tree: a name, a size, and a file or a directory.
  predicate Listed(b: Block) {
    b[0] != NUL && SizeField(b)[0] != NUL && (TypeFlag(b) == '0' || TypeFlag(b) == '5')
  }

  // A header with a size that fits an int as it is read, and the data behind it.  A name is
  // read up to the first zero, which is beyond its field when all 100 characters are used.
  ghost predicate MemberOk(m: Member) {
    && (Listed(m.header) ==> Terminated(m.header))
    && Terminated(SizeField(m.header)) && Digits(Text(SizeField(m.header)))
    && Value(Text(SizeField(m.header)), 10) < 0x8000_0000
    && |m.data| == (SizeOf(m.header) + 511) / 512
  }

  ghost predicate ImageOk(ms: seq<Member>) {
    forall i :: 0 <= i < |ms| ==> MemberOk(ms[i])
  }

  function Blocks(ms: seq<Member>): seq<Block> {
    if ms == [] then [] else [ms[0].header] + ms[0].data + Blocks(ms[1..])
  }

  predicate Zero(b: Block) {
    forall i :: 0 <= i < 512 ==> b[i] == NUL
  }

  // Files and directories, with the addresses of their data, from block `at` on.
  ghost function Listing(ms: seq<Member>, at: nat): seq<Found>
    requires ImageOk(ms)
  {
    if ms == [] then [] else Entry(ms[0], at) + Listing(ms[1..], at + 1 + |ms[0].data|)
  }

  ghost function Entry(m: Member, at: nat): seq<Found>
    requires MemberOk(m)
  {
    ValueBounds(Text(SizeField(m.header)));
    var start := BLOCK * (at + 1);
    if !Listed(m.header) then []
    else if TypeFlag(m.header) == '0' then [Found(Text(m.header), start, start + SizeOf(m.header), File)]
    else [Found(Text(m.header), start, start + SizeOf(m.header), Dir)]
  }

  // ------------------------------------------------- the members taken, byte by byte

  // A header with a name, a size that does not begin with a zero character, and the type flag
  // of a file or a directory.
  predicate Wanted(b: Block) {
    b[0] != '\0' && b[124] != '\0' && (b[156] == '0' || b[156] == '5')
  }

  // Where the data of member i lie, from block `at` on: behind its header, which is behind all
  // blocks of the members before it.
  function DataStart(ms: seq<Member>, at: nat, i: nat): nat
    requires i <= |ms|
  {
    512 * (at + |Blocks(ms[..i])| + 1)
  }

  // The entry of a member: its name, its data up to its octal size, and its kind.
  ghost predicate IsEntry(f: Found, b: Block, start: nat) {
    && Terminated(b) && Terminated(b[124..136])
    && f.name == Text(b) && f.start == start && f.end == start + Value(Text(b[124..136]), 8)
    && f.kind == if b[156] == '0' then File else Dir
  }

  // `found` holds one entry for each wanted member, in order, and nothing else: `which` says of
  // which member each is.
  ghost predicate Lists(ms: seq<Member>, at: nat, found: seq<Found>, which: seq<nat>) {
    && |which| == |found|
    && (forall k {:trigger which[k]} :: 0 <= k < |which| ==> which[k] < |ms|)
    && (forall k, m {:trigger which[k], which[m]} :: 0 <= k < m < |which| ==> which[k] < which[m])
    && (forall i {:trigger ms[i]} :: 0 <= i < |ms| ==> (i in which <==> Wanted(ms[i].header)))
    && (forall k {:trigger found[k]} :: 0 <= k < |found| ==>
          IsEntry(found[k], ms[which[k]].header, DataStart(ms, at, which[k])))
  }

  // The numbers of members, one further on.
  function Later(which: seq<nat>): (r: seq<nat>)
    ensures |r| == |which| && forall k :: 0 <= k < |which| ==> r[k] == which[k] + 1
  {
    seq(|which|, k requires 0 <= k < |which| => which[k] + 1)
  }

  lemma {:induction false} ListingLists(ms: seq<Member>, at: nat) returns (which: seq<nat>)
    requires ImageOk(ms)
    ensures Lists(ms, at, Listing(ms, at), which)
    decreases |ms|
  {
    if ms == [] {
      which := [];
    } else {
      hide MemberOk, Value, Text, Terminated, Digits, Lists, IsEntry, Blocks, DataStart, Wanted, Later, Entry, Listing;
      var rest := ListingLists(ms[1..], at + 1 + |ms[0].data|);
      EntryIs(ms[0], at);
      which := (if Wanted(ms[0].header) then [0] else []) + Later(rest);
      ListsMore(ms, at, rest, which);
    }
  }

  lemma EntryIs(m: Member, at: nat)
    requires MemberOk(m)
    ensures Wanted(m.header) ==> |Entry(m, at)| == 1 && IsEntry(Entry(m, at)[0], m.header, 512 * (at + 1))
    ensures !Wanted(m.header) ==> Entry(m, at) == []
  {
    hide Value;
  }

  lemma DataStartStep(ms: seq<Member>, at: nat, i: nat)
    requires ms != [] && 0 < i <= |ms|
    ensures DataStart(ms, at, i) == DataStart(ms[1..], at + 1 + |ms[0].data|, i - 1)
  {
    assert ms[..i][1..] == ms[1..][..i - 1];
  }

  lemma ListsMore(ms: seq<Member>, at: nat, rest: seq<nat>, which: seq<nat>)
    requires ms != [] && ImageOk(ms) && MemberOk(ms[0]) && ImageOk(ms[1..])
    requires Lists(ms[1..], at + 1 + |ms[0].data|, Listing(ms[1..], at + 1 + |ms[0].data|), rest)
    requires Wanted(ms[0].header) ==> |Entry(ms[0], at)| == 1 && IsEntry(Entry(ms[0], at)[0], ms[0].header, 512 * (at + 1))
    requires !Wanted(ms[0].header) ==> Entry(ms[0], at) == []
    requires which == (if Wanted(ms[0].header) then [0] else []) + Later(rest)
    ensures Lists(ms, at, Listing(ms, at), which)
  {
    hide MemberOk, ImageOk, IsEntry, Entry, DataStart, Wanted, Later, Blocks;
    var c := |Entry(ms[0], at)|;
    InOrder(ms, rest, which, c);
    EntriesMore(ms, at, Entry(ms[0], at), Listing(ms[1..], at + 1 + |ms[0].data|), rest, which);
  }

  lemma EntriesMore(ms: seq<Member>, at: nat, first: seq<Found>, tail: seq<Found>, rest: seq<nat>, which: seq<nat>)
    requires ms != [] && |rest| == |tail| && (forall k {:trigger rest[k]} :: 0 <= k < |rest| ==> rest[k] < |ms[1..]|)
    requires forall k {:trigger tail[k]} :: 0 <= k < |tail| ==>
               IsEntry(tail[k], ms[1..][rest[k]].header, DataStart(ms[1..], at + 1 + |ms[0].data|, rest[k]))
    requires first != [] ==> |first| == 1 && IsEntry(first[0], ms[0].header, 512 * (at + 1))
    requires which == (if first != [] then [0] else []) + Later(rest)
    ensures var found := first + tail;
            |which| == |found| && forall k {:trigger found[k]} :: 0 <= k < |found| ==>
              which[k] < |ms| && IsEntry(found[k], ms[which[k]].header, DataStart(ms, at, which[k]))
  {
    hide IsEntry, DataStart, Blocks;
    var found, c := first + tail, |first|;
    forall k {:trigger found[k]} | 0 <= k < |found|
      ensures which[k] < |ms| && IsEntry(found[k], ms[which[k]].header, DataStart(ms, at, which[k]))
    {
      if k < c {
        FirstStart(ms, at);
      } else {
        assert tail[k - c] == found[k] && which[k] == rest[k - c] + 1;
        assert ms[1..][rest[k - c]] == ms[which[k]];
        DataStartStep(ms, at, which[k]);
      }
    }
  }

  lemma FirstStart(ms: seq<Member>, at: nat)
    ensures DataStart(ms, at, 0) == 512 * (at + 1)
  {
    assert ms[..0] == [];
  }

  lemma InOrder(ms: seq<Member>, rest: seq<nat>, which: seq<nat>, c: nat)
    requires ms != [] && c == (if Wanted(ms[0].header) then 1 else 0)
    requires which == (if c == 1 then [0] else []) + Later(rest)
    requires forall k {:trigger rest[k]} :: 0 <= k < |rest| ==> rest[k] < |ms[1..]|
    requires forall k, m {:trigger rest[k], rest[m]} :: 0 <= k < m < |rest| ==> rest[k] < rest[m]
    requires forall i {:trigger ms[1..][i]} :: 0 <= i < |ms[1..]| ==> (i in rest <==> Wanted(ms[1..][i].header))
    ensures forall k {:trigger which[k]} :: 0 <= k < |which| ==> which[k] < |ms|
    ensures forall k, m {:trigger which[k], which[m]} :: 0 <= k < m < |which| ==> which[k] < which[m]
    ensures forall i {:trigger ms[i]} :: 0 <= i < |ms| ==> (i in which <==> Wanted(ms[i].header))
  {
    hide Wanted;
    assert forall k {:trigger which[k]} :: c <= k < |which| ==> which[k] == rest[k - c] + 1;
    forall i {:trigger ms[i]} | 0 <= i < |ms|
      ensures i in which <==> Wanted(ms[i].header)
    {
      if i > 0 {
        assert ms[1..][i - 1] == ms[i];
        if i - 1 in rest {
          var k :| 0 <= k < |rest| && rest[k] == i - 1;
          assert which[k + c] == i;
        }
      } else {
        assert c == 1 ==> which[0] == 0;
      }
    }
  }

  // The walk of init_tarfs over a well-formed image: it takes exactly the members, in order,
  // steps over the zero blocks at the end, and stops.
  method Walk(image: seq<Block>, ghost ms: seq<Member>, ghost tail: seq<Block>) returns (found: seq<Found>)
    requires ImageOk(ms) && image == Blocks(ms) + tail && forall i :: 0 <= i < |tail| ==> Zero(tail[i])
    ensures found == Listing(ms, 0)
    ensures exists which :: Lists(ms, 0, found, which)
  {
    hide MemberOk, Zero, Listing, Entry, Blocks, Text, Digits, Value, Stride, ImageOk, Terminated, Lists;
    found := [];
    var header := 0;
    ghost var rest, left := ms, tail;
    assert image[0..] == image;
    WalkStart(ms);
    while header < |image|
      invariant header <= |image| && ImageOk(rest) && image[header..] == Blocks(rest) + left
      invariant found + Listing(rest, header) == Listing(ms, 0)
      invariant forall i :: 0 <= i < |left| ==> Zero(left[i])
      decreases |image| - header
    {
      var b := image[header];
      AtHeader(rest, left, b, header, image);
      var dec := OctToDec(SizeField(b));
      if b[0] != NUL && SizeField(b)[0] != NUL {
        var start := BLOCK * (header + 1);
        if TypeFlag(b) == '0' {
          var name := ReadName(b);
          found := found + [Found(name, start, start + dec as int, File)];
        } else if TypeFlag(b) == '5' {
          var name := ReadName(b);
          found := found + [Found(name, start, start + dec as int, Dir)];
        }
      }
      if rest == [] {
        left := left[1..];
      } else {
        rest := rest[1..];
      }
      header := NextHeader(header, dec as int);
    }
    WalkEnd(rest, left, header);
    ghost var which := ListingLists(ms, 0);
  }

  method NextHeader(header: nat, size: nat) returns (next: nat)
    ensures next == header + Stride(size) > header && (size == 0 ==> next == header + 1)
  {
    if size % BLOCK == 0 {
      next := header + 1 + size / BLOCK;
    } else {
      next := header + 2 + size / BLOCK;
    }
  }

  method ReadName(b: Block) returns (name: string)
    requires Terminated(b)
    ensures name == Text(b)
  {
    var n := StrLen(b);
    name := b[..n];
  }

  lemma WalkStart(ms: seq<Member>)
    requires ImageOk(ms)
    ensures [] + Listing(ms, 0) == Listing(ms, 0)
  {
  }

  lemma WalkEnd(rest: seq<Member>, left: seq<Block>, at: nat)
    requires ImageOk(rest) && Blocks(rest) + left == []
    ensures Listing(rest, at) == []
  {
  }

  // How far the stepping goes on from a header: over it and its data, rounded up.
  function Stride(size: int): int {
    if size % BLOCK == 0 then 1 + size / BLOCK else 2 + size / BLOCK
  }

  // The block at the front of the rest: the header of the next member, or a zero block.
  lemma AtHeader(rest: seq<Member>, left: seq<Block>, b: Block, at: nat, image: seq<Block>)
    requires ImageOk(rest) && at < |image| && image[at..] == Blocks(rest) + left && b == image[at]
    requires forall i :: 0 <= i < |left| ==> Zero(left[i])
    ensures Terminated(SizeField(b)) && Digits(Text(SizeField(b))) && Value(Text(SizeField(b)), 10) < 0x8000_0000
    ensures rest == [] ==> left != [] && b[0] == NUL && SizeOf(b) == 0 && image[at + 1..] == left[1..]
    ensures Blocks([]) == [] && Listing([], at) == [] && Listing([], at + 1) == []
    ensures rest != [] ==>
      && SizeOf(b) >= 0 && (Listed(b) ==> Terminated(b)) && ImageOk(rest[1..])
      && at + Stride(SizeOf(b)) <= |image| && image[at + Stride(SizeOf(b))..] == Blocks(rest[1..]) + left
      && var start := BLOCK * (at + 1); var end := start + SizeOf(b);
         Listing(rest, at)
           == (if !Listed(b) then []
               else if TypeFlag(b) == '0' then [Found(Text(b), start, end, File)]
               else [Found(Text(b), start, end, Dir)])
              + Listing(rest[1..], at + Stride(SizeOf(b)))
  {
    hide MemberOk, Digits, Text, Value, Zero, Terminated, Stride, ImageOk;
    if rest == [] {
      AtZero(left, b, at, image);
    } else {
      AtMember(rest, left, b, at, image);
      SizeReads(rest[0]);
    }
  }

  lemma SizeReads(m: Member)
    requires MemberOk(m)
    ensures Terminated(SizeField(m.header)) && Digits(Text(SizeField(m.header))) && Value(Text(SizeField(m.header)), 10) < 0x8000_0000
  {
  }

  lemma AtZero(left: seq<Block>, b: Block, at: nat, image: seq<Block>)
    requires at < |image| && image[at..] == left && b == image[at]
    requires forall i :: 0 <= i < |left| ==> Zero(left[i])
    ensures left != [] && b[0] == NUL && image[at + 1..] == left[1..]
    ensures Terminated(SizeField(b)) && SizeOf(b) == 0
    ensures Digits(Text(SizeField(b))) && Value(Text(SizeField(b)), 10) < 0x8000_0000
  {
    assert b == left[0];
    assert SizeField(b)[0] == b[124];
  }

  lemma AtMember(rest: seq<Member>, left: seq<Block>, b: Block, at: nat, image: seq<Block>)
    requires rest != [] && ImageOk(rest) && at < |image| && image[at..] == Blocks(rest) + left && b == image[at]
    ensures b == rest[0].header && MemberOk(rest[0]) && ImageOk(rest[1..])
    ensures Terminated(SizeField(b)) && SizeOf(b) >= 0 && Stride(SizeOf(b)) == 1 + |rest[0].data|
    ensures Listed(b) ==> Terminated(b)
    ensures at + 1 + |rest[0].data| <= |image| && image[at + 1 + |rest[0].data|..] == Blocks(rest[1..]) + left
    ensures Listing(rest, at) == Entry(rest[0], at) + Listing(rest[1..], at + 1 + |rest[0].data|)
  {
    hide MemberOk, Digits, Text, Value;
    FrontMember(rest, left, at, image);
    HeaderFields(rest[0]);
    hide Blocks, Listing, Entry, Terminated;
    assert forall i {:trigger rest[1..][i]} :: 0 <= i < |rest[1..]| ==> rest[1..][i] == rest[i + 1];
  }

  lemma FrontMember(rest: seq<Member>, left: seq<Block>, at: nat, image: seq<Block>)
    requires rest != [] && at < |image| && image[at..] == Blocks(rest) + left
    ensures image[at] == rest[0].header && at + 1 + |rest[0].data| <= |image|
    ensures image[at + 1 + |rest[0].data|..] == Blocks(rest[1..]) + left
  {
    var front, back := [rest[0].header] + rest[0].data, Blocks(rest[1..]) + left;
    assert Blocks(rest) == front + Blocks(rest[1..]);
    hide Blocks;
    Regroup(front, Blocks(rest[1..]), left);
    Behind(image, at, front, back);
  }

  lemma Regroup<T>(a: seq<T>, b: seq<T>, c: seq<T>)
    ensures a + b + c == a + (b + c)
  {
  }

  lemma Behind<T>(all: seq<T>, at: nat, front: seq<T>, back: seq<T>)
    requires at < |all| && all[at..] == front + back && front != []
    ensures all[at] == front[0] && at + |front| <= |all| && all[at + |front|..] == back
  {
    assert all[at] == all[at..][0];
    assert all[at..][|front|..] == all[at + |front|..];
  }

  lemma HeaderFields(m: Member)
    requires MemberOk(m)
    ensures var b := m.header;
            && Terminated(SizeField(b)) && SizeOf(b) >= 0 && Stride(SizeOf(b)) == 1 + |m.data|
            && (Listed(b) ==> Terminated(b))
  {
    ValueBounds(Text(SizeField(m.header)));
  }
}
