/** The conversions between the integer types of C. */
module Integers {

  // A 64-bit word cut to an int, of 32 bits with a sign.
  function ToInt(x: nat): (w: int)
    ensures -0x8000_0000 <= w < 0x8000_0000
    ensures x < 0x8000_0000 ==> w == x
  {
    var m := x % 0x1_0000_0000;
    if m < 0x8000_0000 then m else m - 0x1_0000_0000
  }

  // An int extended to a 64-bit word.
  function ToWord(w: int): (x: nat)
    requires -0x8000_0000 <= w < 0x8000_0000
    ensures x < 0x1_0000_0000_0000_0000
  {
    if w < 0 then w + 0x1_0000_0000_0000_0000 else w
  }
}
