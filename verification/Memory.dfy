/**
  Physical memory: frames of 4096 bytes, and the little-endian 64-bit words in them.
 */
module Memory {

  type Byte = b: int | 0 <= b < 256

  type Frame = s: seq<Byte> | |s| == 4096 witness seq(4096, _ => 0)

  // A little-endian number of `n` bytes at offset `o`.
  function Load(fr: seq<Byte>, o: nat, n: nat): (w: nat)
    requires o + n <= |fr|
    decreases n
  {
    if n == 0 then 0 else fr[o] + 256 * Load(fr, o + 1, n - 1)
  }

  // The low `n` bytes of `w`, written at offset `o`.
  function Store(fr: seq<Byte>, o: nat, n: nat, w: nat): (r: seq<Byte>)
    requires o + n <= |fr|
    ensures |r| == |fr|
    ensures forall j :: 0 <= j < |fr| && !(o <= j < o + n) ==> r[j] == fr[j]
    decreases n
  {
    if n == 0 then fr else Store(fr[o := w % 256], o + 1, n - 1, w / 256)
  }

  function Pow256(n: nat): (p: nat)
    ensures p > 0
  {
    if n == 0 then 1 else 256 * Pow256(n - 1)
  }

  lemma {:induction false} LoadCongruent(fr: seq<Byte>, fr2: seq<Byte>, o: nat, n: nat)
    requires |fr| == |fr2| && o + n <= |fr|
    requires forall j :: o <= j < o + n ==> fr[j] == fr2[j]
    ensures Load(fr, o, n) == Load(fr2, o, n)
    decreases n
  {
    if n > 0 {
      LoadCongruent(fr, fr2, o + 1, n - 1);
    }
  }

  // What is stored is what is loaded back.
  lemma {:induction false} LoadStore(fr: seq<Byte>, o: nat, n: nat, w: nat)
    requires o + n <= |fr| && w < Pow256(n)
    ensures Load(Store(fr, o, n, w), o, n) == w
    decreases n
  {
    if n > 0 {
      LoadStore(fr[o := w % 256], o + 1, n - 1, w / 256);
    }
  }

  // -------------------------------------------------- the 512 words of a frame

  function WordAt(fr: Frame, i: nat): nat
    requires i < 512
  {
    Load(fr, 8 * i, 8)
  }

  function SetWord(fr: Frame, i: nat, w: nat): Frame
    requires i < 512
  {
    Store(fr, 8 * i, 8, w)
  }

  lemma WordAtSetWord(fr: Frame, i: nat, w: nat, j: nat)
    requires i < 512 && j < 512 && w < 0x1_0000_0000_0000_0000
    ensures WordAt(SetWord(fr, i, w), j) == if i == j then w else WordAt(fr, j)
  {
    if i == j {
      assert Pow256(8) == 0x1_0000_0000_0000_0000;
      LoadStore(fr, 8 * i, 8, w);
    } else {
      LoadCongruent(SetWord(fr, i, w), fr, 8 * j, 8);
    }
  }

  // ------------------------------------------------------- clearing a page

  function ZeroPrefix(fr: Frame, n: nat): Frame {
    seq(4096, i requires 0 <= i < 4096 => if i < n then 0 else fr[i])
  }

  lemma {:induction false} StoreZero(fr: seq<Byte>, o: nat, n: nat)
    requires o + n <= |fr|
    ensures forall j :: 0 <= j < |fr| ==> Store(fr, o, n, 0)[j] == if o <= j < o + n then 0 else fr[j]
    decreases n
  {
    if n > 0 {
      StoreZero(fr[o := 0], o + 1, n - 1);
    }
  }

  // The clearing loops of sys/paging.c store eight zero bytes at each of the offsets
  // 0, 1, .. 511: after `n` stores the first n + 7 bytes are zero.
  lemma ZeroStoreStep(fr: Frame, n: nat)
    requires n < 512
    ensures Store(ZeroPrefix(fr, if n == 0 then 0 else n + 7), n, 8, 0) == ZeroPrefix(fr, n + 8)
  {
    StoreZero(ZeroPrefix(fr, if n == 0 then 0 else n + 7), n, 8);
  }
}
